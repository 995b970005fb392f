/** The ring half of the remote-free invariant. */
module RemoteFreeRing {
  import opened Powers
  import opened FreeList
  import opened RingIndex
  import opened RemoteFree

  predicate Occupies(x: Producer, h: nat, i: nat)
  {
    (x.Filling? || x.Filled?) && x.job == h && x.at == i
  }

  /** A reserved index is either still its producer's, or carries its job's payload. */
  ghost predicate EntryOk(c: Cell, e: Entry, i: nat, jobs: seq<Payload>, x: Producer)
  {
    && e.job < |jobs|
    && if Occupies(x, e.job, i) then c.stamp == i && (x.Filled? ==> c.load == jobs[e.job])
       else c.stamp == i + 1 && c.load == jobs[e.job]
  }

  /** What a producer in the ring path knows. */
  ghost predicate ProducerOk(x: Producer, p: nat, front: nat, tail: nat, k: nat, log: seq<Entry>)
  {
    match x
    case Loaded(h, t) => t <= tail
    case Claiming(h, t) => t <= tail && t < front + Pow2(k)
    case Filling(h, i) => front <= i < tail && i < |log| && log[i] == Entry(h, p)
    case Filled(h, i) => front <= i < tail && i < |log| && log[i] == Entry(h, p)
    case _ => true
  }

  /** Reservations never outnumber cells; reserved cells are in order and the others are free for their next index. */
  ghost predicate RingOk(k: nat, cells: seq<Cell>, front: nat, tail: nat, log: seq<Entry>, jobs: seq<Payload>,
                         producers: map<nat, Producer>)
  {
    && |cells| == Pow2(k) && |log| == tail && front <= tail <= front + Pow2(k)
    && (forall i: nat :: front <= i < tail ==> EntryOk(CellAt(cells, k, i), log[i], i, jobs, Of(producers, log[i].who)))
    && (forall i: nat :: tail <= i < front + Pow2(k) ==> CellAt(cells, k, i).stamp == i)
    && forall p: nat :: ProducerOk(Of(producers, p), p, front, tail, k, log)
  }

  /** What has come out of the ring is what was reserved, in the order of the reservations. */
  ghost predicate PoppedOk(popped: seq<Payload>, jobs: seq<Payload>, log: seq<Entry>)
  {
    |popped| <= |log| && forall i :: 0 <= i < |popped| ==> log[i].job < |jobs| && popped[i] == jobs[log[i].job]
  }

  /** What the owner knows while it drains the ring. */
  ghost predicate OwnerOk(k: nat, cells: seq<Cell>, head: nat, tail: nat, log: seq<Entry>, c: Consumer, popped: seq<Payload>)
  {
    && |popped| == (if c.Taken? || c.Vacated? then head + 1 else head) && |log| == tail
    && match c
       case Ripe => head < tail && CellAt(cells, k, head).stamp == head + 1
       case Taken(h, load) => head < tail && CellAt(cells, k, head).stamp == head + 1 && h == log[head].job && load == popped[head]
       case Vacated(h, load) => head < tail && h == log[head].job && load == popped[head]
       case Holding(h, load) => 0 < head <= tail && h == log[head - 1].job && load == popped[head - 1]
       case _ => true
  }

  lemma SetCellAt(cells: seq<Cell>, k: nat, i: nat, c: Cell, j: nat)
    requires |cells| == Pow2(k) && (i == j || i < j < i + Pow2(k) || j < i < j + Pow2(k))
    ensures CellAt(SetCell(cells, k, i, c), k, j) == if i == j then c else CellAt(cells, k, j)
    ensures |SetCell(cells, k, i, c)| == |cells|
  {
    CellBound(i, k);
    CellBound(j, k);
    if i < j {
      CellsApart(i, j, k);
    } else if j < i {
      CellsApart(j, i, k);
    }
  }

  lemma SetCellAgain(cells: seq<Cell>, k: nat, i: nat, c: Cell)
    requires |cells| == Pow2(k)
    ensures CellAt(SetCell(cells, k, i, c), k, i + Pow2(k)) == c
  {
    CellBound(i, k);
    CellAgain(i, k);
  }

  // ---- steps of the producers ----

  /** A producer moves between states that occupy no cell. */
  lemma RingMove(k: nat, cells: seq<Cell>, front: nat, tail: nat, log: seq<Entry>, jobs: seq<Payload>,
                 producers: map<nat, Producer>, p: nat, x: Producer)
    requires RingOk(k, cells, front, tail, log, jobs, producers)
    requires !Of(producers, p).Filling? && !Of(producers, p).Filled? && !x.Filling? && !x.Filled?
    requires ProducerOk(x, p, front, tail, k, log)
    ensures RingOk(k, cells, front, tail, log, jobs, producers[p := x])
  {
    var producers' := producers[p := x];
    forall i: nat | front <= i < tail
      ensures EntryOk(CellAt(cells, k, i), log[i], i, jobs, Of(producers', log[i].who))
    {
      assert EntryOk(CellAt(cells, k, i), log[i], i, jobs, Of(producers, log[i].who));
    }
    forall q: nat
      ensures ProducerOk(Of(producers', q), q, front, tail, k, log)
    {
      assert ProducerOk(Of(producers, q), q, front, tail, k, log);
    }
  }

  lemma RingJobs(k: nat, cells: seq<Cell>, front: nat, tail: nat, log: seq<Entry>, jobs: seq<Payload>,
                 producers: map<nat, Producer>, load: Payload)
    requires RingOk(k, cells, front, tail, log, jobs, producers)
    ensures RingOk(k, cells, front, tail, log, jobs + [load], producers)
  {
    forall i: nat | front <= i < tail
      ensures EntryOk(CellAt(cells, k, i), log[i], i, jobs + [load], Of(producers, log[i].who))
    {
      assert EntryOk(CellAt(cells, k, i), log[i], i, jobs, Of(producers, log[i].who));
    }
  }

  /** The number read in a cell decides a push: equal means free, smaller means that every cell is outstanding. */
  lemma StampTells(k: nat, cells: seq<Cell>, front: nat, tail: nat, log: seq<Entry>, jobs: seq<Payload>,
                   producers: map<nat, Producer>, t: nat)
    requires k > 0 && RingOk(k, cells, front, tail, log, jobs, producers) && t <= tail
    ensures CellAt(cells, k, t).stamp == t ==> t < front + Pow2(k)
    ensures CellAt(cells, k, t).stamp < t <==> t == front + Pow2(k)
  {
    assert Pow2(k) >= 2;
    if t == front + Pow2(k) {
      CellAgain(front, k);
      assert CellAt(cells, k, t) == CellAt(cells, k, front);
      assert EntryOk(CellAt(cells, k, front), log[front], front, jobs, Of(producers, log[front].who));
    } else {
      var j := Twin(t, front, k);
      assert CellAt(cells, k, t) == CellAt(cells, k, j);
      if j < tail {
        assert EntryOk(CellAt(cells, k, j), log[j], j, jobs, Of(producers, log[j].who));
      }
    }
  }

  /** The tail is advanced and index `tail` is the producer's alone. */
  lemma ReserveRing(k: nat, cells: seq<Cell>, front: nat, tail: nat, log: seq<Entry>, jobs: seq<Payload>,
                    producers: map<nat, Producer>, p: nat, h: nat)
    requires RingOk(k, cells, front, tail, log, jobs, producers)
    requires Of(producers, p) == Claiming(h, tail) && h < |jobs|
    ensures RingOk(k, cells, front, tail + 1, log + [Entry(h, p)], jobs, producers[p := Filling(h, tail)])
  {
    var producers', log' := producers[p := Filling(h, tail)], log + [Entry(h, p)];
    assert ProducerOk(Of(producers, p), p, front, tail, k, log);
    assert CellAt(cells, k, tail).stamp == tail;
    forall i: nat | front <= i < tail + 1
      ensures EntryOk(CellAt(cells, k, i), log'[i], i, jobs, Of(producers', log'[i].who))
    {
      if i < tail {
        assert EntryOk(CellAt(cells, k, i), log[i], i, jobs, Of(producers, log[i].who));
      }
    }
    forall q: nat
      ensures ProducerOk(Of(producers', q), q, front, tail + 1, k, log')
    {
      assert ProducerOk(Of(producers, q), q, front, tail, k, log);
    }
  }

  /** The producer of index i writes its cell: the payload, or the number that publishes it. */
  lemma WriteRing(k: nat, cells: seq<Cell>, front: nat, tail: nat, log: seq<Entry>, jobs: seq<Payload>,
                  producers: map<nat, Producer>, p: nat, h: nat, i: nat, x: Producer, c: Cell)
    requires RingOk(k, cells, front, tail, log, jobs, producers)
    requires Occupies(Of(producers, p), h, i)
    requires (Of(producers, p).Filling? && x == Filled(h, i) && c == Cell(i, JobAt(jobs, h)))
          || (Of(producers, p).Filled? && x == Ready && c == Cell(i + 1, CellAt(cells, k, i).load))
    ensures RingOk(k, SetCell(cells, k, i, c), front, tail, log, jobs, producers[p := x])
    ensures front <= i < tail && CellAt(cells, k, i).stamp == i
  {
    var cells', producers' := SetCell(cells, k, i, c), producers[p := x];
    assert ProducerOk(Of(producers, p), p, front, tail, k, log);
    assert EntryOk(CellAt(cells, k, i), log[i], i, jobs, Of(producers, p));
    forall j: nat | front <= j < tail
      ensures EntryOk(CellAt(cells', k, j), log[j], j, jobs, Of(producers', log[j].who))
    {
      SetCellAt(cells, k, i, c, j);
      assert EntryOk(CellAt(cells, k, j), log[j], j, jobs, Of(producers, log[j].who));
    }
    forall j: nat | tail <= j < front + Pow2(k)
      ensures CellAt(cells', k, j).stamp == j
    {
      SetCellAt(cells, k, i, c, j);
    }
    SetCellAt(cells, k, i, c, i);
    forall q: nat
      ensures ProducerOk(Of(producers', q), q, front, tail, k, log)
    {
      assert ProducerOk(Of(producers, q), q, front, tail, k, log);
    }
  }

  /** A producer's write leaves the owner's head cell alone once that is published. */
  lemma WriteOwner(k: nat, cells: seq<Cell>, head: nat, tail: nat, log: seq<Entry>, c: Consumer, popped: seq<Payload>,
                   i: nat, w: Cell)
    requires OwnerOk(k, cells, head, tail, log, c, popped) && |cells| == Pow2(k)
    requires CellAt(cells, k, i).stamp == i && (!c.Vacated? ==> head <= i < head + Pow2(k))
    ensures OwnerOk(k, SetCell(cells, k, i, w), head, tail, log, c, popped)
  {
    if !c.Vacated? {
      SetCellAt(cells, k, i, w, head);
    }
  }

  lemma LogOwner(k: nat, cells: seq<Cell>, head: nat, tail: nat, log: seq<Entry>, c: Consumer, popped: seq<Payload>, e: Entry)
    requires OwnerOk(k, cells, head, tail, log, c, popped)
    ensures OwnerOk(k, cells, head, tail + 1, log + [e], c, popped)
  {
  }

  // ---- steps of the owner ----

  /** A published head cell holds its job's payload. */
  lemma HeadLoad(k: nat, cells: seq<Cell>, head: nat, tail: nat, log: seq<Entry>, jobs: seq<Payload>, producers: map<nat, Producer>)
    requires RingOk(k, cells, head, tail, log, jobs, producers) && CellAt(cells, k, head).stamp == head + 1
    ensures head < tail && log[head].job < |jobs| && CellAt(cells, k, head).load == jobs[log[head].job]
  {
    if head < tail {
      assert EntryOk(CellAt(cells, k, head), log[head], head, jobs, Of(producers, log[head].who));
    }
  }

  /** Handing the head cell back frees it for the index one lap ahead. */
  lemma VacateRing(k: nat, cells: seq<Cell>, head: nat, tail: nat, log: seq<Entry>, jobs: seq<Payload>,
                   producers: map<nat, Producer>)
    requires RingOk(k, cells, head, tail, log, jobs, producers) && head < tail && CellAt(cells, k, head).stamp == head + 1
    ensures RingOk(k, SetCell(cells, k, head, CellAt(cells, k, head).(stamp := head + Pow2(k))), head + 1, tail, log, jobs, producers)
  {
    var c := CellAt(cells, k, head).(stamp := head + Pow2(k));
    var cells' := SetCell(cells, k, head, c);
    forall j: nat | head + 1 <= j < tail
      ensures EntryOk(CellAt(cells', k, j), log[j], j, jobs, Of(producers, log[j].who))
    {
      SetCellAt(cells, k, head, c, j);
      assert EntryOk(CellAt(cells, k, j), log[j], j, jobs, Of(producers, log[j].who));
    }
    forall j: nat | tail <= j < head + 1 + Pow2(k)
      ensures CellAt(cells', k, j).stamp == j
    {
      if j == head + Pow2(k) {
        SetCellAgain(cells, k, head, c);
      } else {
        SetCellAt(cells, k, head, c, j);
      }
    }
    SetCellAt(cells, k, head, c, head);
    assert EntryOk(CellAt(cells, k, head), log[head], head, jobs, Of(producers, log[head].who));
    forall q: nat
      ensures ProducerOk(Of(producers, q), q, head + 1, tail, k, log)
    {
      assert ProducerOk(Of(producers, q), q, head, tail, k, log);
    }
  }
}
