/**
 Freeing from other threads, under sequential consistency: a bounded ring with one consumer, and a
 stack of freed blocks for when the ring is full, whose links live inside the blocks.
 */
module RemoteFree {
  import opened Powers
  import opened FreeList
  import opened RingIndex

  datatype Payload = Payload(ptr: nat, size: nat)

  datatype Cell = Cell(stamp: nat, load: Payload)

  /** The node a stacked block carries in its own first bytes. */
  datatype Node = Node(sz: nat, next: int)

  /** Where a thread stands inside a push of job `job`. */
  datatype Producer =
    | Ready
    | Begun(job: nat)                   // the tail is to be loaded
    | Loaded(job: nat, at: nat)         // the cell's sequence number is to be read
    | Claiming(job: nat, at: nat)       // the cell looked free; the tail is to be advanced
    | Filling(job: nat, at: nat)        // reserved; the payload is to be written
    | Filled(job: nat, at: nat)         // the sequence number is to be stored
    | Spilling(job: nat)                // the ring was full; the size is to be stored in the block
    | Sized(job: nat)                   // the stack's head is to be loaded
    | Linking(job: nat, top: int)       // the link is to be stored
    | Linked(job: nat, top: int)        // the head is to be swung

  /** Where the owner stands inside a drain. */
  datatype Consumer =
    | Away
    | Popping                           // the head cell's sequence number is to be read
    | Ripe                              // the payload is to be read
    | Taken(job: nat, load: Payload)    // the cell is to be handed back
    | Vacated(job: nat, load: Payload)  // the head is to be advanced
    | Holding(job: nat, load: Payload)  // the block is to be released
    | RingDone                          // the stack's head is to be checked
    | Swapping                          // the stack is to be detached
    | Walking(link: int)
    | Fetched(node: nat, next: int, sz: nat)

  /** One reservation: the job it is for and the thread that made it. */
  datatype Entry = Entry(job: nat, who: nat)

  /** Where a handed-over block is. */
  datatype Place = With(p: nat) | Slot(i: nat) | Hand | Stacked(j: nat) | Cut(j: nat) | Done(n: nat) | Lost(n: nat)

  datatype State = State(
    cells: seq<Cell>, tail: nat, head: nat,
    top: int, mem: map<nat, Node>,
    producers: map<nat, Producer>, consumer: Consumer,
    // history: every push begun, every reservation, the two stacks bottom first, every release, every loss
    jobs: seq<Payload>, log: seq<Entry>, stack: seq<nat>, cut: seq<nat>,
    place: seq<Place>, popped: seq<Payload>, done: seq<nat>, out: seq<Payload>, lost: seq<nat>)

  function Of(producers: map<nat, Producer>, p: nat): Producer
  {
    if p in producers then producers[p] else Ready
  }

  function NodeAt(mem: map<nat, Node>, ptr: nat): Node
  {
    if ptr in mem then mem[ptr] else Node(0, NIL)
  }

  /** The first index whose cell has not been handed back. */
  function Front(s: State): nat
  {
    if s.consumer.Vacated? then s.head + 1 else s.head
  }

  // ---- the steps ----

  /**
   One atomic step: a thread begins a push, a push or the drain goes on from where it stands, the owner
   dies inside a drain, or a client writes to its memory. A weak exchange may fail for no reason.
   */
  datatype Action =
    | Begin(p: nat, load: Payload)
    | Push(p: nat, spurious: bool)
    | BeginDrain
    | Drain(left: Node)
    | OwnerDies
    | ClientWrite(ptr: nat, left: Node)

  predicate Outstanding(s: State, h: nat)
  {
    h < |s.place| && h < |s.jobs| && !s.place[h].Done?
  }

  /** No block whose release is pending is at ptr. */
  ghost predicate Unclaimed(s: State, ptr: nat)
  {
    forall h: nat :: Outstanding(s, h) ==> s.jobs[h].ptr != ptr
  }

  /**
   A thread pushes only blocks it holds, a client writes only to blocks not handed over;
   an owner does not die between handing a cell back and advancing the head.
   */
  ghost predicate Enabled(s: State, a: Action)
  {
    match a
    case Begin(p, load) => Of(s.producers, p).Ready? && Unclaimed(s, load.ptr)
    case Push(p, spurious) => !Of(s.producers, p).Ready?
    case BeginDrain => s.consumer.Away?
    case Drain(left) => !s.consumer.Away?
    case OwnerDies => !s.consumer.Away? && !s.consumer.Vacated?
    case ClientWrite(ptr, left) => Unclaimed(s, ptr)
  }

  function JobAt(jobs: seq<Payload>, h: nat): Payload
  {
    if h < |jobs| then jobs[h] else Payload(0, 0)
  }

  function CellAt(cells: seq<Cell>, k: nat, i: nat): Cell
  {
    if CellOf(i, k) < |cells| then cells[CellOf(i, k)] else Cell(0, Payload(0, 0))
  }

  function SetCell(cells: seq<Cell>, k: nat, i: nat, c: Cell): seq<Cell>
  {
    if CellOf(i, k) < |cells| then cells[CellOf(i, k) := c] else cells
  }

  function Put(place: seq<Place>, h: nat, x: Place): seq<Place>
  {
    if h < |place| then place[h := x] else place
  }

  function Move(s: State, p: nat, x: Producer): State
  {
    s.(producers := s.producers[p := x])
  }

  function Last(ids: seq<nat>): nat
  {
    if ids == [] then 0 else ids[|ids| - 1]
  }

  function ButLast(ids: seq<nat>): seq<nat>
  {
    if ids == [] then [] else ids[..|ids| - 1]
  }

  /** Detached blocks keep their position in the stack they were cut from. */
  function CutPlaces(place: seq<Place>): (r: seq<Place>)
    ensures |r| == |place|
  {
    seq(|place|, h requires 0 <= h < |place| => if place[h].Stacked? then Cut(place[h].j) else place[h])
  }

  /** The jobs that only an owner at place c of a drain knows of: the one in its hand, or the detached ones. */
  function Known(c: Consumer, cut: seq<nat>): seq<nat>
  {
    if c.Vacated? || c.Holding? then [c.job] else cut
  }

  function LostPlaces(place: seq<Place>, base: nat): (r: seq<Place>)
    ensures |r| == |place|
  {
    seq(|place|, h requires 0 <= h < |place| =>
      match place[h]
      case Hand => Lost(base)
      case Cut(j) => Lost(base + j)
      case _ => place[h])
  }

  /**
   The owner dies inside a drain, and the next one begins its drains anew. A payload read from a cell that
   was not handed back is read again; a block taken out of the ring or detached is lost.
   */
  function Abandon(s: State): State
  {
    s.(consumer := Away, cut := [], lost := s.lost + Known(s.consumer, s.cut), place := LostPlaces(s.place, |s.lost|),
       popped := if s.consumer.Taken? && s.popped != [] then s.popped[..|s.popped| - 1] else s.popped)
  }

  function JobAtHead(s: State): nat
  {
    if s.head < |s.log| then s.log[s.head].job else 0
  }

  function Apply(s: State, k: nat, a: Action): State
  {
    match a
    case Begin(p, load) => Move(s, p, Begun(|s.jobs|)).(jobs := s.jobs + [load], place := s.place + [With(p)])
    case Push(p, spurious) => PushStep(s, k, p, Of(s.producers, p), spurious)
    case BeginDrain => s.(consumer := Popping)
    case Drain(left) => DrainStep(s, k, s.consumer, left)
    case OwnerDies => Abandon(s)
    case ClientWrite(ptr, left) => s.(mem := s.mem[ptr := left])
  }

  /** push, and the overflow push once the ring refused. */
  function PushStep(s: State, k: nat, p: nat, x: Producer, spurious: bool): State
  {
    match x
    case Ready => s
    case Begun(h) => Move(s, p, Loaded(h, s.tail))
    case Loaded(h, t) =>
      var stamp := CellAt(s.cells, k, t).stamp;
      Move(s, p, if stamp == t then Claiming(h, t) else if stamp < t then Spilling(h) else Begun(h))
    case Claiming(h, t) =>
      if s.tail == t && !spurious then
        Move(s, p, Filling(h, t)).(tail := t + 1, log := s.log + [Entry(h, p)], place := Put(s.place, h, Slot(t)))
      else Move(s, p, Begun(h))
    case Filling(h, t) =>
      Move(s, p, Filled(h, t)).(cells := SetCell(s.cells, k, t, CellAt(s.cells, k, t).(load := JobAt(s.jobs, h))))
    case Filled(h, t) =>
      Move(s, p, Ready).(cells := SetCell(s.cells, k, t, CellAt(s.cells, k, t).(stamp := t + 1)))
    case Spilling(h) =>
      var b := JobAt(s.jobs, h);
      Move(s, p, Sized(h)).(mem := s.mem[b.ptr := NodeAt(s.mem, b.ptr).(sz := b.size)])
    case Sized(h) => Move(s, p, Linking(h, s.top))
    case Linking(h, top) =>
      var b := JobAt(s.jobs, h);
      Move(s, p, Linked(h, top)).(mem := s.mem[b.ptr := NodeAt(s.mem, b.ptr).(next := top)])
    case Linked(h, top) =>
      if s.top == top && !spurious then
        Move(s, p, Ready).(top := JobAt(s.jobs, h).ptr, stack := s.stack + [h], place := Put(s.place, h, Stacked(|s.stack|)))
      else Move(s, p, Linking(h, s.top))
  }

  /**
   The drain: pop until the ring yields nothing, then detach the stack and walk it, reading link and
   size before the block is released. What a released block holds afterwards is anyone's.
   */
  function DrainStep(s: State, k: nat, c: Consumer, left: Node): State
  {
    match c
    case Away => s
    case Popping => s.(consumer := if CellAt(s.cells, k, s.head).stamp == s.head + 1 then Ripe else RingDone)
    case Ripe =>
      var load := CellAt(s.cells, k, s.head).load;
      s.(consumer := Taken(JobAtHead(s), load), popped := s.popped + [load])
    case Taken(h, load) =>
      s.(consumer := Vacated(h, load), place := Put(s.place, h, Hand),
         cells := SetCell(s.cells, k, s.head, CellAt(s.cells, k, s.head).(stamp := s.head + Pow2(k))))
    case Vacated(h, load) => s.(consumer := Holding(h, load), head := s.head + 1)
    case Holding(h, load) =>
      s.(consumer := Popping, mem := s.mem[load.ptr := left], out := s.out + [load],
         done := s.done + [h], place := Put(s.place, h, Done(|s.done|)))
    case RingDone => s.(consumer := if s.top == NIL then Away else Swapping)
    case Swapping => s.(consumer := Walking(s.top), top := NIL, cut := s.stack, stack := [], place := CutPlaces(s.place))
    case Walking(link) =>
      if link < 0 then s.(consumer := Away)
      else s.(consumer := Fetched(link, NodeAt(s.mem, link).next, NodeAt(s.mem, link).sz))
    case Fetched(node, next, sz) =>
      var h := Last(s.cut);
      s.(consumer := Walking(next), mem := s.mem[node := left], out := s.out + [Payload(node, sz)],
         done := s.done + [h], place := Put(s.place, h, Done(|s.done|)), cut := ButLast(s.cut))
  }

  /** An idle ring of 2^k cells with nothing stacked. */
  ghost predicate Init(s: State, k: nat)
  {
    && |s.cells| == Pow2(k) && (forall i: nat :: i < Pow2(k) ==> s.cells[i].stamp == i)
    && s.tail == s.head == 0 && s.top == NIL && s.producers == map[] && s.consumer == Away
    && s.jobs == [] && s.log == [] && s.stack == [] && s.cut == [] && s.place == []
    && s.popped == [] && s.done == [] && s.out == [] && s.lost == []
  }

  /** Each action of the run can be taken when its turn comes. */
  ghost predicate Runs(s: State, k: nat, run: seq<Action>)
    decreases |run|
  {
    run == [] || (Enabled(s, run[0]) && Runs(Apply(s, k, run[0]), k, run[1..]))
  }

  function After(s: State, k: nat, run: seq<Action>): State
    decreases |run|
  {
    if run == [] then s else After(Apply(s, k, run[0]), k, run[1..])
  }
}
