/** The completion queue: the driver writes entries into a ring in host memory, the host recognises new entries by
    their phase tag (sections 4.1 and 4.6 of NVM Express 1.1) and reports how far it has come by doorbells that may
    arrive late. */
module CompletionRing {
  import opened Rings

  datatype Entry = Entry(req: nat, phase: bool)

  /** One completion queue of the driver, with the host memory behind it and the requests freed. */
  datatype Cq = Cq(size: nat, tail: nat, head: nat, phase: bool, pending: seq<nat>, slots: seq<Entry>, freed: seq<nat>)

  predicate Shaped(q: Cq) { 2 <= q.size == |q.slots| && q.tail < q.size && q.head < q.size }

  // nvme_cq_full
  predicate Full(q: Cq)
    requires 0 < q.size
  {
    (q.tail + 1) % q.size == q.head
  }

  // inc_cq_tail
  function IncTail(q: Cq): Cq {
    if q.tail + 1 >= q.size then q.(tail := 0, phase := !q.phase) else q.(tail := q.tail + 1)
  }

  // ---- The driver's steps -------------------------------------------------------------------------------

  // Posting is three steps: the request leaves the pending queue, its entry reaches host memory, and the tail moves.
  datatype Pc = Between | Taken(req: nat) | Written(req: nat)

  function WriteEntry(q: Cq, req: nat): Cq
    requires Shaped(q)
  {
    q.(slots := q.slots[q.tail := Entry(req, q.phase)])
  }

  function Advance(q: Cq, req: nat): Cq { IncTail(q).(freed := q.freed + [req]) }

  function PostOne(q: Cq): Cq
    requires Shaped(q) && q.pending != []
  {
    Advance(WriteEntry(q.(pending := q.pending[1..]), q.pending[0]), q.pending[0])
  }

  // post_io_ccmds, when nothing else happens meanwhile.
  function PostAll(q: Cq): (q': Cq)
    requires Shaped(q)
    ensures Shaped(q') && q'.size == q.size
    ensures q'.pending == [] || Full(q')
    decreases |q.pending|
  {
    if q.pending == [] || Full(q) then q else PostAll(PostOne(q))
  }

  lemma PostAllStep(q: Cq)
    requires Shaped(q)
    ensures PostAll(q) == if q.pending == [] || Full(q) then q else PostAll(PostOne(q))
  {
  }

  // enqueue_io_ccmd: a request that finds the pending queue full is dropped.
  function Enqueue(q: Cq, req: nat): Cq
    requires Shaped(q)
  {
    if |q.pending| == q.size - 1 then q else PostAll(q.(pending := q.pending + [req]))
  }

  // ---- What posting does ----------------------------------------------------------------------------------------

  // Slots the driver may still fill.
  function Room(q: Cq): int {
    if q.tail < q.head then q.head - q.tail - 1 else q.head + q.size - q.tail - 1
  }

  // How many requests are posted, and how far slot j lies behind the tail.
  function PostCount(q: Cq): int { if |q.pending| <= Room(q) then |q.pending| else Room(q) }

  function Behind(q: Cq, j: nat): int { if q.tail <= j then j - q.tail else j + q.size - q.tail }

  /** The oldest pending requests, as many as there is room for, sit in the slots from the tail on, in order, each with
      the phase of its lap; they are freed in that order; and nothing else has changed. */
  ghost predicate PostsOldest(q: Cq, q': Cq)
    requires Shaped(q)
  {
    var m := PostCount(q);
    && 0 <= m <= |q.pending| && q'.size == q.size && q'.head == q.head && |q'.slots| == |q.slots|
    && q'.pending == q.pending[m..] && q'.freed == q.freed + q.pending[..m]
    && q'.tail == (if q.tail + m < q.size then q.tail + m else q.tail + m - q.size)
    && q'.phase == (if q.tail + m < q.size then q.phase else !q.phase)
    && forall j | 0 <= j < |q.slots| :: PostedAt(q, q', m, j)
  }

  ghost predicate PostedAt(q: Cq, q': Cq, m: int, j: nat)
    requires m <= |q.pending| && Shaped(q) && |q'.slots| == |q.slots| && j < |q.slots|
  {
    q'.slots[j] ==
    if Behind(q, j) < m then Entry(q.pending[Behind(q, j)], if q.tail <= j then q.phase else !q.phase) else q.slots[j]
  }

  lemma FullIffNoRoom(q: Cq)
    requires Shaped(q)
    ensures Full(q) <==> Room(q) == 0
    ensures 0 <= Room(q) < q.size
  {
    WrapIsMod(q.tail + 1, q.size);
  }

  lemma PostOneThenOldest(q: Cq, q': Cq)
    requires Shaped(q) && q.pending != [] && !Full(q) && PostsOldest(PostOne(q), q')
    ensures PostsOldest(q, q')
  {
    hide PostedAt, Full, PostOne, Room;
    FullIffNoRoom(q);
    OneTurn(q);
    var q1 := PostOne(q);
    var m := PostCount(q);
    assert q.pending[m..] == q1.pending[m - 1..] && q.pending[..m] == [q.pending[0]] + q1.pending[..m - 1];
    forall j | 0 <= j < |q.slots| ensures PostedAt(q, q', m, j) {
      assert PostedAt(q1, q', m - 1, j);
      SlotAfterOne(q, q', m, j);
    }
  }

  lemma OneTurn(q: Cq)
    requires Shaped(q) && q.pending != [] && 0 < Room(q)
    ensures var q1 := PostOne(q);
            && Shaped(q1) && q1.size == q.size && q1.head == q.head && Room(q1) == Room(q) - 1
            && q1.pending == q.pending[1..] && q1.freed == q.freed + [q.pending[0]]
            && q1.tail == (if q.tail + 1 < q.size then q.tail + 1 else 0)
            && q1.phase == (if q.tail + 1 < q.size then q.phase else !q.phase)
  {
  }

  lemma SlotAfterOne(q: Cq, q': Cq, m: int, j: nat)
    requires Shaped(q) && 0 < m <= |q.pending| && m <= Room(q) && |q'.slots| == |q.slots| && j < |q.slots|
    requires PostedAt(PostOne(q), q', m - 1, j)
    ensures PostedAt(q, q', m, j)
  {
  }

  /** post_io_ccmds posts the oldest pending requests until none is left or the ring is full. */
  lemma {:induction false} PostAllPostsOldest(q: Cq)
    requires Shaped(q)
    ensures PostsOldest(q, PostAll(q))
    decreases |q.pending|
  {
    hide PostAll, PostsOldest, Full, Room;
    PostAllStep(q);
    if q.pending == [] || Full(q) {
      NothingToPost(q);
    } else {
      PostAllPostsOldest(PostOne(q));
      PostOneThenOldest(q, PostAll(q));
    }
  }

  lemma NothingToPost(q: Cq)
    requires Shaped(q) && (q.pending == [] || Full(q))
    ensures PostsOldest(q, q)
  {
    hide Full;
    FullIffNoRoom(q);
    assert q.freed + [] == q.freed && q.pending[0..] == q.pending;
  }

  /** enqueue_io_ccmd drops the request when size - 1 are pending; otherwise it becomes the youngest pending one before
      the oldest are posted. */
  lemma EnqueuePostsOldest(q: Cq, req: nat)
    requires Shaped(q)
    ensures if |q.pending| == q.size - 1 then Enqueue(q, req) == q
            else PostsOldest(q.(pending := q.pending + [req]), Enqueue(q, req))
  {
    if |q.pending| != q.size - 1 { PostAllPostsOldest(q.(pending := q.pending + [req])); }
  }

  /** The driver's half as the firmware runs it. */
  class CompletionQueue {
    const size: nat
    var tail: nat
    var head: nat
    var phase: bool
    const pending: Queue<nat>
    const slots: array<Entry>
    var freed: seq<nat>

    ghost predicate Valid()
      reads this, pending, pending.objs, slots
    {
      && pending.Shaped() && pending.objs.Length == size && slots.Length == size
      && Shaped(State())
    }

    ghost function State(): Cq
      requires pending.Shaped()
      reads this, pending, pending.objs, slots
    {
      Cq(size, tail, head, phase, pending.Contents(), slots[..], freed)
    }

    // nvme_create_cq; the host has cleared its ring.
    constructor (size: nat)
      requires 2 <= size
      ensures Valid() && State() == Cq(size, 0, 0, true, [], seq(size, _ => Entry(0, false)), [])
      ensures fresh(pending) && fresh(pending.objs) && fresh(slots)
    {
      this.size := size;
      tail, head, phase, freed := 0, 0, true, [];
      pending := new Queue<nat>(size);
      slots := new Entry[size](_ => Entry(0, false));
    }

    method PostIoCcmds()
      requires Valid()
      modifies this`tail, this`phase, this`freed, pending`head, slots
      ensures Valid() && State() == PostAll(old(State()))
    {
      hide PostOne, PostAll;
      ghost var goal := PostAll(State());
      PostAllStep(State());
      while pending.head != pending.tail && (tail + 1) % size != head
        invariant Valid() && PostAll(State()) == goal
        decreases |pending.Contents()|
      {
        PostAllStep(State());
        PostOneCcmd();
      }
      PostAllStep(State());
    }

    method PostOneCcmd()
      requires Valid() && pending.Contents() != []
      modifies this`tail, this`phase, this`freed, pending`head, slots
      ensures Valid() && State() == PostOne(old(State())) && |pending.Contents()| < |old(pending.Contents())|
    {
      hide Items;
      var ioReq := pending.DeQueue();
      slots[tail] := Entry(ioReq.value, phase);
      tail := tail + 1;
      if tail >= size {
        tail := 0;
        phase := !phase;
      }
      freed := freed + [ioReq.value];
    }

    method EnqueueIoCcmd(req: nat)
      requires Valid()
      modifies this`tail, this`phase, this`freed, pending, pending.objs, slots
      ensures Valid() && State() == Enqueue(old(State()), req)
    {
      var ok := pending.EnQueue(req);
      if !ok {
        return;
      }
      PostIoCcmds();
    }

    // The doorbell of the completion queue.
    method HeadDoorbell(value: nat)
      requires Valid() && value < size
      modifies this`head, this`tail, this`phase, this`freed, pending`head, slots
      ensures Valid() && State() == PostAll(old(State()).(head := value))
    {
      head := value;
      PostIoCcmds();
    }
  }

  // ---- Driver and host together ------------------------------------------------------------------------------

  /** The queue, the point at which posting stands, the host's place and phase, and the doorbells on their way.
      History: requests accepted into the pending queue, in order; entries written; entries the host has taken; what
      each doorbell on its way counts, and what the last one seen counted. */
  datatype System = System(
    q: Cq,
    pc: Pc,
    hostHead: nat,
    hostPhase: bool,
    doorbells: seq<nat>,
    accepted: seq<nat>,
    dropped: seq<nat>,
    written: nat,
    consumed: seq<nat>,
    rung: seq<nat>,
    seen: nat)

  datatype Event = Submit(req: nat) | TakePending | WriteOut | MoveTail | Poll | Ring | SeeDoorbell

  predicate Enabled(s: System, ev: Event) {
    match ev
    case Submit(_) => s.pc.Between?
    case TakePending => s.pc.Between? && s.q.pending != [] && 0 < s.q.size && !Full(s.q)
    case WriteOut => s.pc.Taken?
    case MoveTail => s.pc.Written?
    case Poll => true
    case Ring => true
    case SeeDoorbell => s.pc.Between? && s.doorbells != []
  }

  predicate SeesNew(s: System) { s.hostHead < |s.q.slots| && s.q.slots[s.hostHead].phase == s.hostPhase }

  function Step(s: System, ev: Event): System
    requires Enabled(s, ev) && Shaped(s.q) && s.hostHead < s.q.size && |s.rung| == |s.doorbells|
  {
    match ev
    case Submit(req) =>
      if |s.q.pending| == s.q.size - 1 then s.(dropped := s.dropped + [req])
      else s.(q := s.q.(pending := s.q.pending + [req]), accepted := s.accepted + [req])
    case TakePending => s.(q := s.q.(pending := s.q.pending[1..]), pc := Taken(s.q.pending[0]))
    case WriteOut => s.(q := WriteEntry(s.q, s.pc.req), pc := Written(s.pc.req), written := s.written + 1)
    case MoveTail => s.(q := Advance(s.q, s.pc.req), pc := Between)
    case Poll =>
      if SeesNew(s) then
        s.(consumed := s.consumed + [s.q.slots[s.hostHead].req],
           hostHead := if s.hostHead + 1 == s.q.size then 0 else s.hostHead + 1,
           hostPhase := if s.hostHead + 1 == s.q.size then !s.hostPhase else s.hostPhase)
      else s
    case Ring => s.(doorbells := s.doorbells + [s.hostHead], rung := s.rung + [|s.consumed|])
    case SeeDoorbell =>
      s.(q := s.q.(head := if s.doorbells[0] < s.q.size then s.doorbells[0] else s.q.head),
        doorbells := s.doorbells[1..], seen := s.rung[0], rung := s.rung[1..])
  }

  // ---- Invariant ----------------------------------------------------------------------------------------------

  // Entries written whose tail has moved.
  function Posted(s: System): int { if s.pc.Written? then s.written - 1 else s.written }

  /** Slot contents seen from the host: entries not yet taken are in place, all others carry the wrong phase tag. */
  ghost predicate TapeHolds(slots: seq<Entry>, accepted: seq<nat>, consumed: nat, written: nat) {
    && 0 < |slots| && consumed <= written <= |accepted| && written <= consumed + |slots|
    && forall k | consumed <= k < consumed + |slots| :: TapeAt(slots, accepted, written, k)
  }

  predicate TapeAt(slots: seq<Entry>, accepted: seq<nat>, written: nat, k: nat)
    requires 0 < |slots| && written <= |accepted|
  {
    if k < written then slots[Slot(k, |slots|)] == Entry(accepted[k], Tag(k, |slots|))
    else slots[Slot(k, |slots|)].phase != Tag(k, |slots|)
  }

  predicate RungRight(s: System)
    requires 0 < s.q.size
  {
    && |s.rung| == |s.doorbells|
    && (forall i | 0 <= i < |s.rung| ::
      s.doorbells[i] == Slot(s.rung[i], s.q.size) && s.seen <= s.rung[i] <= |s.consumed|)
    && (forall i, j | 0 <= i < j < |s.rung| :: s.rung[i] <= s.rung[j])
  }

  ghost predicate Good(s: System) {
    && Shaped(s.q)
    && var n := s.q.size;
       && 0 <= Posted(s) && s.written <= |s.accepted| && |s.consumed| <= s.written && s.seen <= |s.consumed|
       && s.seen <= Posted(s)
       && s.q.tail == Slot(Posted(s), n) && s.q.phase == Tag(Posted(s), n)
       && s.q.head == Slot(s.seen, n)
       && s.hostHead == Slot(|s.consumed|, n) && s.hostPhase == Tag(|s.consumed|, n)
       && RungRight(s)
       && s.written + (if s.pc.Taken? then 1 else 0) <= s.seen + n - 1
       && InOrder(s)
       && TapeHolds(s.q.slots, s.accepted, |s.consumed|, s.written)
  }

  // Every request accepted is at one place: freed, about to be posted, or pending.
  ghost predicate InOrder(s: System)
    requires s.written <= |s.accepted| && |s.consumed| <= s.written && 0 <= Posted(s)
  {
    && |s.q.pending| <= s.q.size - 1
    && s.consumed == s.accepted[..|s.consumed|]
    && s.q.freed == s.accepted[..Posted(s)]
    && match s.pc
       case Between => s.q.pending == s.accepted[s.written..]
       case Taken(req) => s.written < |s.accepted| && req == s.accepted[s.written]
         && s.q.pending == s.accepted[s.written + 1..]
       case Written(req) => req == s.accepted[s.written - 1] && s.q.pending == s.accepted[s.written..]
  }

  lemma TapeWrite(slots: seq<Entry>, accepted: seq<nat>, consumed: nat, written: nat)
    requires TapeHolds(slots, accepted, consumed, written) && written < |accepted| && written < consumed + |slots|
    ensures var n := |slots|;
            TapeHolds(slots[Slot(written, n) := Entry(accepted[written], Tag(written, n))], accepted, consumed,
              written + 1)
  {
    var n, next := |slots|, written + 1;
    var slots' := slots[Slot(written, n) := Entry(accepted[written], Tag(written, n))];
    forall k | consumed <= k < consumed + n ensures TapeAt(slots', accepted, next, k) {
      assert TapeAt(slots, accepted, written, k);
      if k < written { SlotsDiffer(k, written, n); } else if k > written { SlotsDiffer(written, k, n); }
    }
  }

  lemma TapeRead(slots: seq<Entry>, accepted: seq<nat>, consumed: nat, written: nat)
    requires TapeHolds(slots, accepted, consumed, written)
    ensures slots[Slot(consumed, |slots|)].phase == Tag(consumed, |slots|) <==> consumed < written
    ensures consumed < written ==> slots[Slot(consumed, |slots|)].req == accepted[consumed]
    ensures consumed < written ==> TapeHolds(slots, accepted, consumed + 1, written)
  {
    hide Slot, Tag;
    assert TapeAt(slots, accepted, written, consumed);
    if consumed < written {
      OneLap(consumed, |slots|);
      forall k | consumed + 1 <= k < consumed + 1 + |slots| ensures TapeAt(slots, accepted, written, k) {
        if k < consumed + |slots| { assert TapeAt(slots, accepted, written, k); }
      }
    }
  }

  lemma TapeAccept(slots: seq<Entry>, accepted: seq<nat>, consumed: nat, written: nat, req: nat)
    requires TapeHolds(slots, accepted, consumed, written)
    ensures TapeHolds(slots, accepted + [req], consumed, written)
  {
    forall k | consumed <= k < consumed + |slots| ensures TapeAt(slots, accepted + [req], written, k) {
      assert TapeAt(slots, accepted, written, k);
    }
  }

  lemma FullIff(s: System)
    requires Good(s)
    ensures Full(s.q) <==> Posted(s) == s.seen + s.q.size - 1
  {
    hide Slot, Tag, TapeHolds;
    var n := s.q.size;
    NextPosition(Posted(s), n);
    WrapIsMod(s.q.tail + 1, n);
    if Posted(s) + 1 == s.seen + n {
      OneLap(s.seen, n);
    } else {
      LaterSlot(s.seen, Posted(s) + 1, n);
      if Posted(s) + 1 > s.seen { SlotsDiffer(s.seen, Posted(s) + 1, n); }
    }
  }

  lemma SubmitKeeps(s: System, req: nat)
    requires Good(s) && Enabled(s, Submit(req))
    ensures Good(Step(s, Submit(req)))
  {
    hide Slot, Tag, TapeHolds, RungRight;
    TapeAccept(s.q.slots, s.accepted, |s.consumed|, s.written, req);
    RungLengths(s);
    RungSame(s, Step(s, Submit(req)));
  }

  lemma RungLengths(s: System)
    requires 0 < s.q.size && RungRight(s)
    ensures |s.rung| == |s.doorbells|
  {
  }

  lemma RungSame(s: System, t: System)
    requires 0 < s.q.size && RungRight(s) && t.q.size == s.q.size
    requires t.doorbells == s.doorbells && t.rung == s.rung && t.seen == s.seen && |s.consumed| <= |t.consumed|
    ensures RungRight(t)
  {
    hide Slot;
  }

  lemma PostingKeeps(s: System, ev: Event)
    requires Good(s) && Enabled(s, ev) && (ev == TakePending || ev == WriteOut || ev == MoveTail)
    ensures Good(Step(s, ev))
  {
    hide Slot, Tag, TapeHolds, RungRight;
    RungLengths(s);
    RungSame(s, Step(s, ev));
    if ev == TakePending {
      FullIff(s);
    } else if ev == WriteOut {
      TapeWrite(s.q.slots, s.accepted, |s.consumed|, s.written);
    } else {
      NextPosition(Posted(s), s.q.size);
    }
  }

  lemma PollKeeps(s: System)
    requires Good(s)
    ensures Good(Step(s, Poll))
  {
    hide Slot, Tag, TapeHolds, RungRight;
    RungLengths(s);
    RungSame(s, Step(s, Poll));
    TapeRead(s.q.slots, s.accepted, |s.consumed|, s.written);
    NextPosition(|s.consumed|, s.q.size);
  }

  lemma DoorbellKeeps(s: System, ev: Event)
    requires Good(s) && Enabled(s, ev) && (ev == Ring || ev == SeeDoorbell)
    ensures Good(Step(s, ev))
  {
    hide Slot, Tag, TapeHolds;
    if ev == SeeDoorbell { assert s.doorbells[0] == Slot(s.rung[0], s.q.size); }
  }

  lemma StepKeeps(s: System, ev: Event)
    requires Good(s) && Enabled(s, ev)
    ensures Good(Step(s, ev))
  {
    hide *;
    match ev
    case Submit(req) => SubmitKeeps(s, req);
    case Poll => PollKeeps(s);
    case Ring => DoorbellKeeps(s, ev);
    case SeeDoorbell => DoorbellKeeps(s, ev);
    case _ => PostingKeeps(s, ev);
  }

  // ---- What the host and the driver can rely on ---------------------------------------------------------------------

  ghost predicate AllEnabled(s: System, evs: seq<Event>)
    requires Good(s)
    decreases |evs|
  {
    evs != [] ==> Enabled(s, evs[0]) && (StepKeeps(s, evs[0]); AllEnabled(Step(s, evs[0]), evs[1..]))
  }

  ghost function RunAll(s: System, evs: seq<Event>): (s': System)
    requires Good(s) && AllEnabled(s, evs)
    ensures Good(s')
    decreases |evs|
  {
    if evs == [] then s else
      StepKeeps(s, evs[0]);
      RunAll(Step(s, evs[0]), evs[1..])
  }

  /** A new queue, as created, over a ring the host has cleared. */
  function Created(size: nat): System {
    System(Cq(size, 0, 0, true, [], seq(size, _ => Entry(0, false)), []), Between, 0, true, [], [], [], 0, [], [], 0)
  }

  lemma CreatedGood(size: nat)
    requires 2 <= size
    ensures Good(Created(size))
  {
    var s := Created(size);
    forall k | 0 <= k < size ensures TapeAt(s.q.slots, s.accepted, 0, k) {
      QuotientIs(k, 0, k, size);
    }
    QuotientIs(0, 0, 0, size);
  }

  /** However late the doorbells are, the host takes the completions it is posted in order, each once: a poll finds a
      new entry exactly when there is one, and the entry is the next request's. */
  lemma PollFindsNext(s: System)
    requires Good(s)
    ensures SeesNew(s) <==> |s.consumed| < s.written
    ensures SeesNew(s) ==> Step(s, Poll).consumed == s.accepted[..|s.consumed| + 1]
    ensures !SeesNew(s) ==> Step(s, Poll).consumed == s.consumed
  {
    hide Slot, Tag, TapeHolds;
    TapeRead(s.q.slots, s.accepted, |s.consumed|, s.written);
  }

  /** An entry that the host has not taken is never overwritten. */
  lemma NoEntryLost(s: System, k: nat)
    requires Good(s) && s.pc.Taken? && |s.consumed| <= k < s.written
    ensures s.q.tail != Slot(k, s.q.size)
    ensures Step(s, WriteOut).q.slots[Slot(k, s.q.size)] == s.q.slots[Slot(k, s.q.size)] ==
      Entry(s.accepted[k], Tag(k, s.q.size))
  {
    hide Slot, Tag;
    SlotsDiffer(k, s.written, s.q.size);
    assert TapeAt(s.q.slots, s.accepted, s.written, k);
  }

  // The requests submitted over a run, in order.
  function Submitted(evs: seq<Event>): seq<nat> {
    if evs == [] then [] else (if evs[0].Submit? then [evs[0].req] else []) + Submitted(evs[1..])
  }

  // The first list is the other two, each in its own order.
  predicate Merges(all: seq<nat>, xs: seq<nat>, ys: seq<nat>) {
    if all == [] then xs == [] && ys == []
    else
      || (xs != [] && xs[0] == all[0] && Merges(all[1..], xs[1..], ys))
      || (ys != [] && ys[0] == all[0] && Merges(all[1..], xs, ys[1..]))
  }

  lemma {:induction false} MergesNone(all: seq<nat>, xs: seq<nat>)
    requires Merges(all, xs, [])
    ensures xs == all
  {
    if all != [] { MergesNone(all[1..], xs[1..]); }
  }

  // One submission is accepted or dropped; every other event leaves both lists.
  lemma StepSubmits(s: System, ev: Event)
    requires Good(s) && Enabled(s, ev)
    ensures var t := Step(s, ev);
            if ev.Submit? then
              || (t.accepted == s.accepted + [ev.req] && t.dropped == s.dropped)
              || (t.accepted == s.accepted && t.dropped == s.dropped + [ev.req])
            else t.accepted == s.accepted && t.dropped == s.dropped
  {
    hide Slot, Tag, TapeHolds, RungRight, InOrder;
    RungOf(s);
  }

  lemma RungOf(s: System)
    requires Good(s)
    ensures Shaped(s.q) && s.hostHead < s.q.size && |s.rung| == |s.doorbells|
  {
  }

  /** Over any run every submitted request is accepted or dropped, and both keep their order. */
  lemma {:induction false} RunSubmits(s: System, evs: seq<Event>)
    requires Good(s) && AllEnabled(s, evs)
    ensures s.accepted <= RunAll(s, evs).accepted && s.dropped <= RunAll(s, evs).dropped
    ensures Merges(Submitted(evs), RunAll(s, evs).accepted[|s.accepted|..], RunAll(s, evs).dropped[|s.dropped|..])
    decreases |evs|
  {
    hide Good, Step, Enabled;
    if evs != [] {
      StepSubmits(s, evs[0]);
      StepKeeps(s, evs[0]);
      RungOf(s);
      var t, e := Step(s, evs[0]), RunAll(s, evs);
      RunSubmits(t, evs[1..]);
      if evs[0].Submit? {
        var all := Submitted(evs[1..]);
        if t.dropped == s.dropped {
          AfterPrefix(e.accepted, s.accepted, evs[0].req);
          MergesWith(evs[0].req, all, e.accepted[|t.accepted|..], e.dropped[|s.dropped|..]);
        } else {
          AfterPrefix(e.dropped, s.dropped, evs[0].req);
          MergesWith(evs[0].req, all, e.accepted[|s.accepted|..], e.dropped[|t.dropped|..]);
        }
      } else {
        assert Submitted(evs) == Submitted(evs[1..]);
      }
    }
  }

  lemma AfterPrefix(all: seq<nat>, first: seq<nat>, x: nat)
    requires first + [x] <= all
    ensures first <= all && all[|first|..] == [x] + all[|first| + 1..]
  {
    assert all[|first|] == (first + [x])[|first|];
  }

  lemma MergesWith(x: nat, all: seq<nat>, xs: seq<nat>, ys: seq<nat>)
    requires Merges(all, xs, ys)
    ensures Merges([x] + all, [x] + xs, ys) && Merges([x] + all, xs, [x] + ys)
  {
    assert ([x] + all)[1..] == all && ([x] + xs)[1..] == xs && ([x] + ys)[1..] == ys;
  }

  /** Over any run from creation: the requests submitted are, each in its own order, those accepted and those dropped;
      what the host has taken and what has been returned to the pool are prefixes of what was accepted, so each
      request is completed and freed at most once and in order, and as long as nothing was dropped these are
      prefixes of what was submitted; when nothing is pending, every accepted request has been freed. */
  lemma ExactlyOnce(size: nat, evs: seq<Event>)
    requires 2 <= size && Good(Created(size)) && AllEnabled(Created(size), evs)
    ensures var e := RunAll(Created(size), evs);
            && Merges(Submitted(evs), e.accepted, e.dropped)
            && e.consumed <= e.accepted && e.q.freed <= e.accepted
            && (e.dropped == [] ==>
                 e.accepted == Submitted(evs) && e.consumed <= Submitted(evs) && e.q.freed <= Submitted(evs))
            && |e.consumed| <= e.written <= |e.accepted|
            && e.accepted == e.q.freed + (if e.pc.Between? then [] else [e.pc.req]) + e.q.pending
  {
    hide Good, RunAll, AllEnabled, Merges;
    var s, e := Created(size), RunAll(Created(size), evs);
    GoodIsInOrder(e);
    RunSubmits(s, evs);
    assert e.accepted[0..] == e.accepted && e.dropped[0..] == e.dropped;
    if e.dropped == [] { MergesNone(Submitted(evs), e.accepted); }
  }

  lemma GoodIsInOrder(e: System)
    requires Good(e)
    ensures e.consumed <= e.accepted && e.q.freed <= e.accepted && |e.consumed| <= e.written <= |e.accepted|
    ensures e.accepted == e.q.freed + (if e.pc.Between? then [] else [e.pc.req]) + e.q.pending
  {
    hide Slot, Tag, TapeHolds, RungRight, Shaped;
    if e.pc.Taken? {
      assert e.accepted == e.accepted[..e.written] + [e.accepted[e.written]] + e.accepted[e.written + 1..];
    } else if e.pc.Written? {
      assert e.accepted == e.accepted[..e.written - 1] + [e.accepted[e.written - 1]] + e.accepted[e.written..];
    } else {
      assert e.accepted == e.accepted[..e.written] + [] + e.accepted[e.written..];
    }
  }

  /** Posting waits for nothing but the host: once the host has taken every entry and the driver has seen a doorbell
      for them, the ring is not full. */
  lemma RingDrains(s: System)
    requires Good(s) && s.pc.Between? && s.seen == |s.consumed| == s.written
    ensures !Full(s.q)
    ensures s.q.pending != [] ==> Enabled(s, TakePending)
  {
    FullIff(s);
  }

  // Requests submitted and not yet freed.
  function Outstanding(s: System): int { |s.accepted| - |s.q.freed| }

  /** A completion is dropped exactly when the pending queue is full; with fewer requests outstanding than the ring has
      usable slots, that never happens. */
  lemma DroppedIff(s: System, req: nat)
    requires Good(s) && s.pc.Between?
    ensures Step(s, Submit(req)).dropped != s.dropped <==> Outstanding(s) >= s.q.size - 1
    ensures Outstanding(s) == |s.q.pending|
  {
    hide Slot, Tag, TapeHolds;
  }

  // ---- The driver's routines as runs of the protocol ---------------------------------------------------------------

  // The steps of one call of post_io_ccmds.
  ghost function PostingSteps(q: Cq): seq<Event>
    requires Shaped(q)
    decreases |q.pending|
  {
    if q.pending == [] || Full(q) then [] else [TakePending, WriteOut, MoveTail] + PostingSteps(PostOne(q))
  }

  lemma RunOne(s: System, ev: Event, rest: seq<Event>)
    requires Good(s) && Enabled(s, ev) && Good(Step(s, ev)) && AllEnabled(Step(s, ev), rest)
    ensures AllEnabled(s, [ev] + rest) && RunAll(s, [ev] + rest) == RunAll(Step(s, ev), rest)
  {
    hide Good, Step, Enabled;
    RungOf(s);
    assert ([ev] + rest)[1..] == rest;
  }

  // A turn of the posting loop is three steps.
  lemma PostOneIsThreeSteps(s: System, rest: seq<Event>) returns (t: System)
    requires Good(s) && s.pc.Between? && s.q.pending != [] && !Full(s.q)
    ensures Good(t) && t.q == PostOne(s.q) && t.pc.Between? && t.accepted == s.accepted && t.dropped == s.dropped
    ensures AllEnabled(t, rest) ==>
              AllEnabled(s, [TakePending, WriteOut, MoveTail] + rest)
              && RunAll(s, [TakePending, WriteOut, MoveTail] + rest) == RunAll(t, rest)
  {
    hide Slot, Tag, TapeHolds, RungRight, InOrder, AllEnabled, RunAll;
    RungOf(s);
    StepKeeps(s, TakePending);
    var s1 := Step(s, TakePending);
    RungOf(s1);
    StepKeeps(s1, WriteOut);
    var s2 := Step(s1, WriteOut);
    RungOf(s2);
    StepKeeps(s2, MoveTail);
    t := Step(s2, MoveTail);
    if AllEnabled(t, rest) {
      RunOne(s2, MoveTail, rest);
      RunOne(s1, WriteOut, [MoveTail] + rest);
      RunOne(s, TakePending, [WriteOut] + ([MoveTail] + rest));
      assert [TakePending] + ([WriteOut] + ([MoveTail] + rest)) == [TakePending, WriteOut, MoveTail] + rest;
    }
  }

  /** Between two other events, a call of post_io_ccmds is a run of the protocol. */
  lemma {:induction false} PostAllIsRun(s: System)
    requires Good(s) && s.pc.Between?
    ensures AllEnabled(s, PostingSteps(s.q))
    ensures var t := RunAll(s, PostingSteps(s.q));
            t.q == PostAll(s.q) && t.pc.Between? && t.accepted == s.accepted && t.dropped == s.dropped
    decreases |s.q.pending|
  {
    hide Good, Step, Enabled, Full;
    RungOf(s);
    if s.q.pending != [] && !Full(s.q) {
      var t := PostOneIsThreeSteps(s, PostingSteps(PostOne(s.q)));
      PostAllIsRun(t);
    }
  }

  /** So is a call of enqueue_io_ccmd: the request's submission, then posting unless it was dropped. */
  lemma EnqueueIsRun(s: System, req: nat)
    requires Good(s) && s.pc.Between?
    ensures Enabled(s, Submit(req)) && Good(Step(s, Submit(req)))
    ensures var t := Step(s, Submit(req));
            && t.pc.Between?
            && var evs := if t.dropped == s.dropped then PostingSteps(t.q) else [];
               AllEnabled(t, evs) && RunAll(t, evs).q == Enqueue(s.q, req)
  {
    hide Slot, Tag, TapeHolds, RungRight, InOrder;
    RungOf(s);
    StepKeeps(s, Submit(req));
    PostAllIsRun(Step(s, Submit(req)));
  }

  /** And so is a call for a doorbell: it is seen, then posting goes on. */
  lemma DoorbellIsRun(s: System)
    requires Good(s) && Enabled(s, SeeDoorbell)
    ensures Good(Step(s, SeeDoorbell))
    ensures var t := Step(s, SeeDoorbell);
            && t.doorbells == s.doorbells[1..] && AllEnabled(t, PostingSteps(t.q))
            && RunAll(t, PostingSteps(t.q)).q == PostAll(s.q.(head := s.doorbells[0]))
  {
    hide Slot, Tag, TapeHolds, InOrder;
    RungOf(s);
    StepKeeps(s, SeeDoorbell);
    PostAllIsRun(Step(s, SeeDoorbell));
  }
}
