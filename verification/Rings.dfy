/** The fixed-size rings underneath: the queues of the kernel and of the shared memory, the buffer queues of the NVMe
    driver, the controllers' command FIFO, and the pools of request objects. Each is a plain FIFO list. */
module Rings {
  import opened Wrappers
  import opened Geometry

  // ---- Ring positions ---------------------------------------------------------------------------------

  function Wrap(i: nat, n: nat): nat { if i < n then i else i - n }

  // The source reduces modulo the size.
  lemma WrapIsMod(i: nat, n: nat)
    requires 0 < n && i < 2 * n
    ensures i % n == Wrap(i, n) < n
  {
    if i >= n { assert i == n + (i - n); ModAdd(i - n, n); }
  }

  lemma ModAdd(r: nat, n: nat)
    requires r < n
    ensures (n + r) % n == r
  {
  }

  // ---- Positions in an endless tape laid around the ring ---------------------------------------------------------

  function Slot(k: nat, n: nat): (r: nat)
    requires 0 < n
    ensures r < n
  {
    k % n
  }

  // The phase tag of the lap that position k belongs to.
  function Tag(k: nat, n: nat): bool
    requires 0 < n
  {
    k / n % 2 == 0
  }

  lemma NextPosition(k: nat, n: nat)
    requires 0 < n
    ensures Slot(k + 1, n) == if Slot(k, n) + 1 == n then 0 else Slot(k, n) + 1
    ensures Tag(k + 1, n) == if Slot(k, n) + 1 == n then !Tag(k, n) else Tag(k, n)
  {
    var lap, r := k / n, k % n;
    assert k == lap * n + r;
    if r + 1 == n {
      assert k + 1 == (lap + 1) * n;
      QuotientIs(k + 1, lap + 1, 0, n);
    } else {
      QuotientIs(k + 1, lap, r + 1, n);
    }
  }

  lemma QuotientIs(k: nat, lap: nat, r: nat, n: nat)
    requires 0 < n && r < n && k == lap * n + r
    ensures k / n == lap && k % n == r
  {
    DivMod(lap, r, n);
  }

  // Once around the ring: the same slot with the other tag.
  lemma OneLap(k: nat, n: nat)
    requires 0 < n
    ensures Slot(k + n, n) == Slot(k, n) && Tag(k + n, n) != Tag(k, n)
  {
    assert k == k / n * n + k % n;
    assert k + n == (k / n + 1) * n + k % n;
    QuotientIs(k + n, k / n + 1, k % n, n);
  }

  lemma {:induction false} LaterSlot(a: nat, b: nat, n: nat)
    requires 0 < n && a <= b < a + n
    ensures Slot(b, n) == if Slot(a, n) + (b - a) < n then Slot(a, n) + (b - a) else Slot(a, n) + (b - a) - n
    decreases b
  {
    if a < b {
      LaterSlot(a, b - 1, n);
      NextPosition(b - 1, n);
    }
  }

  lemma SlotsDiffer(a: nat, b: nat, n: nat)
    requires 0 < n && a < b < a + n
    ensures Slot(a, n) != Slot(b, n)
  {
    LaterSlot(a, b, n);
  }

  /** The n items from position head on. */
  function Items<T>(objs: seq<T>, head: nat, n: nat): seq<T>
    requires head < |objs| && n <= |objs|
  {
    seq(n, k requires 0 <= k < n => objs[Wrap(head + k, |objs|)])
  }

  lemma ItemAt<T>(objs: seq<T>, head: nat, n: nat, k: nat)
    requires head < |objs| && k < n <= |objs|
    ensures Items(objs, head, n)[k] == objs[Wrap(head + k, |objs|)]
  {
  }

  lemma ItemsPush<T>(objs: seq<T>, head: nat, n: nat, x: T)
    requires head < |objs| && n < |objs|
    ensures Wrap(head + n, |objs|) < |objs|
    ensures Items(objs[Wrap(head + n, |objs|) := x], head, n + 1) == Items(objs, head, n) + [x]
  {
    var after := objs[Wrap(head + n, |objs|) := x];
    forall k | 0 <= k < n + 1 ensures Items(after, head, n + 1)[k] == (Items(objs, head, n) + [x])[k] {
      ItemAt(after, head, n + 1, k);
      if k < n { ItemAt(objs, head, n, k); }
    }
  }

  lemma ItemsPop<T>(objs: seq<T>, head: nat, n: nat)
    requires head < |objs| && 0 < n <= |objs|
    ensures Wrap(head + 1, |objs|) < |objs|
    ensures Items(objs, head, n)[0] == objs[head]
    ensures Items(objs, Wrap(head + 1, |objs|), n - 1) == Items(objs, head, n)[1..]
  {
    ItemAt(objs, head, n, 0);
    forall k | 0 <= k < n - 1 ensures Items(objs, Wrap(head + 1, |objs|), n - 1)[k] == Items(objs, head, n)[1..][k] {
      ItemAt(objs, Wrap(head + 1, |objs|), n - 1, k);
      ItemAt(objs, head, n, k + 1);
    }
  }

  // A write at the tail of a ring with every slot taken loses the oldest item.
  lemma ItemsOverwrite<T>(objs: seq<T>, head: nat, x: T)
    requires head < |objs|
    ensures Wrap(head + 1, |objs|) < |objs|
    ensures Items(objs[head := x], Wrap(head + 1, |objs|), |objs|) == Items(objs, head, |objs|)[1..] + [x]
  {
    var after, from := objs[head := x], Wrap(head + 1, |objs|);
    forall k | 0 <= k < |objs|
      ensures Items(after, from, |objs|)[k] == (Items(objs, head, |objs|)[1..] + [x])[k]
    {
      ItemAt(after, from, |objs|, k);
      if k + 1 < |objs| { ItemAt(objs, head, |objs|, k + 1); }
    }
  }

  // ---- queue_t ------------------------------------------------------------------------------------------

  /** A ring with one slot always empty; head and tail tell empty from full. */
  class Queue<T(0)> {
    const objs: array<T>
    var head: nat
    var tail: nat

    function Count(): (n: nat)
      requires Shaped()
      reads this
      ensures n < objs.Length
    {
      if head <= tail then tail - head else tail + objs.Length - head
    }

    predicate Shaped()
      reads this
    {
      head < objs.Length && tail < objs.Length
    }

    function Contents(): (s: seq<T>)
      requires Shaped()
      reads this, objs
      ensures |s| == Count()
    {
      Items(objs[..], head, Count())
    }

    constructor (size: nat)
      requires 0 < size
      ensures Shaped() && Contents() == [] && objs.Length == size && fresh(objs)
    {
      objs := new T[size];
      head, tail := 0, 0;
    }

    /** enQueue: refused exactly when all slots but one are taken. */
    method EnQueue(item: T) returns (ok: bool)
      requires Shaped()
      modifies this`tail, objs
      ensures Shaped() && head == old(head)
      ensures ok <==> |old(Contents())| < objs.Length - 1
      ensures Contents() == if ok then old(Contents()) + [item] else old(Contents())
    {
      WrapIsMod(tail + 1, objs.Length);
      if head == (tail + 1) % objs.Length {
        return false;
      }
      ItemsPush(objs[..], head, Count(), item);
      assert Wrap(head + Count(), objs.Length) == tail;
      objs[tail] := item;
      tail := (tail + 1) % objs.Length;
      ok := true;
    }

    /** deQueue: the oldest item, if there is one. */
    method DeQueue() returns (item: Option<T>)
      requires Shaped()
      modifies this`head
      ensures Shaped() && tail == old(tail)
      ensures if old(Contents()) == [] then item == None && Contents() == []
              else item == Some(old(Contents())[0]) && Contents() == old(Contents())[1..]
    {
      WrapIsMod(head + 1, objs.Length);
      if head == tail {
        return None;
      }
      ItemsPop(objs[..], head, Count());
      item := Some(objs[head]);
      head := (head + 1) % objs.Length;
    }
  }

  // ---- Buffer queues of the NVMe driver -------------------------------------------------------------------

  /** A ring whose slots can all be taken; a flag tells empty from full. */
  class BufferQueue<T(0)> {
    const objs: array<T>
    var head: nat
    var tail: nat
    var empty: bool

    predicate Shaped()
      reads this
    {
      head < objs.Length && tail < objs.Length && (empty ==> head == tail)
    }

    function Count(): (n: nat)
      requires Shaped()
      reads this
      ensures n <= objs.Length
    {
      if empty then 0 else if head < tail then tail - head else tail + objs.Length - head
    }

    function Contents(): (s: seq<T>)
      requires Shaped()
      reads this, objs
      ensures |s| == Count()
    {
      Items(objs[..], head, Count())
    }

    constructor (size: nat)
      requires 0 < size
      ensures Shaped() && Contents() == [] && objs.Length == size && fresh(objs)
    {
      objs := new T[size];
      head, tail, empty := 0, 0, true;
    }

    /** push_r_buf_q and push_w_buf_q do not test for a full queue: with every slot taken, the push forgets all that
        was queued and keeps only the new request. */
    method Push(req: T)
      requires Shaped()
      modifies this`tail, this`empty, objs
      ensures Shaped()
      ensures |old(Contents())| < objs.Length ==> Contents() == old(Contents()) + [req]
      ensures |old(Contents())| == objs.Length > 1 ==> Contents() == [req]
    {
      WrapIsMod(tail + 1, objs.Length);
      if Count() < objs.Length {
        ItemsPush(objs[..], head, Count(), req);
        assert Wrap(head + Count(), objs.Length) == tail;
      }
      objs[tail] := req;
      tail := tail + 1;
      tail := tail % objs.Length;
      empty := false;
      if Count() == 1 { ItemAt(objs[..], head, 1, 0); }
    }

    method Pop() returns (req: T)
      requires Shaped() && !empty
      modifies this`head, this`empty
      ensures Shaped() && old(Contents()) != [] && req == old(Contents())[0] && Contents() == old(Contents())[1..]
      ensures empty <==> Contents() == []
    {
      WrapIsMod(head + 1, objs.Length);
      ItemsPop(objs[..], head, Count());
      req := objs[head];
      head := head + 1;
      head := head % objs.Length;
      if head == tail {
        empty := true;
      }
    }
  }

  // ---- Simple_FiFo of the NAND controllers ---------------------------------------------------------------

  const FIFO_SIZE := 1024

  /** The command FIFO. Its full flag is set by comparing the head with the slot after the tail without wrapping
      around, so it is not set when the last free slot is the last of the array. */
  class SimpleFifo<T(0)> {
    const entries: array<T>
    var head: nat
    var tail: nat
    var items: nat
    var isEmpty: bool
    var isFull: bool

    predicate Sized()
      reads this
    {
      entries.Length == FIFO_SIZE && head < FIFO_SIZE && tail < FIFO_SIZE
    }

    // Nothing has been lost. The full flag, when set, is right, but it may be missing.
    predicate Shaped()
      reads this
    {
      && Sized() && items <= FIFO_SIZE && tail == Wrap(head + items, FIFO_SIZE)
      && (isEmpty <==> items == 0)
      && (isFull ==> items == FIFO_SIZE - 1)
    }

    // The flag is missing at most where the unwrapped comparison misses it.
    predicate Exact()
      reads this
    {
      Shaped() && items < FIFO_SIZE && (items == FIFO_SIZE - 1 ==> (isFull <==> head != 0))
    }

    function Contents(): (s: seq<T>)
      requires Shaped()
      reads this, entries
      ensures |s| == items
    {
      Items(entries[..], head, items)
    }

    constructor ()
      ensures Exact() && Contents() == [] && fresh(entries)
    {
      entries := new T[FIFO_SIZE];
      head, tail, items, isEmpty, isFull := 0, 0, 0, true, false;
    }

    /** A push is refused exactly when the full flag is set. An accepted one is appended, up to 1024 items; onto 1024
        items it is accepted too and overwrites the oldest. The flag stays exact below 1023 items. */
    method Push(data: T) returns (ok: bool)
      requires Sized()
      modifies this`tail, this`items, this`isEmpty, this`isFull, entries
      ensures Sized() && (ok <==> !old(isFull))
      ensures !ok ==> unchanged(this) && unchanged(entries)
      ensures old(Shaped()) && old(items) < FIFO_SIZE && ok ==> Shaped() && Contents() == old(Contents()) + [data]
      ensures old(Shaped()) && old(items) == FIFO_SIZE ==>
                ok && Items(entries[..], tail, FIFO_SIZE) == old(Contents())[1..] + [data] && entries[head] == data
      ensures old(Exact()) ==> (ok <==> old(items) < FIFO_SIZE - 1 || head == 0)
      ensures old(Exact()) && old(items) < FIFO_SIZE - 1 ==> Exact()
    {
      hide Items;
      if isFull {
        return false;
      }
      WrapIsMod(tail + 1, FIFO_SIZE);
      if Shaped() && items < FIFO_SIZE { ItemsPush(entries[..], head, items, data); }
      if Shaped() && items == FIFO_SIZE { ItemsOverwrite(entries[..], head, data); }
      ghost var objs := entries[..];
      entries[tail] := data;
      assert entries[..] == objs[tail := data];
      tail := tail + 1;
      tail := tail % FIFO_SIZE;
      items := items + 1;
      if head == tail + 1 {
        isFull := true;
      }
      isEmpty := false;
      ok := true;
    }

    method Pop() returns (data: Option<T>)
      requires Shaped()
      modifies this`head, this`items, this`isEmpty, this`isFull
      ensures Shaped() && (old(Exact()) ==> Exact())
      ensures if old(Contents()) == [] then data == None && Contents() == []
              else data == Some(old(Contents())[0]) && Contents() == old(Contents())[1..]
    {
      if isEmpty {
        return None;
      }
      WrapIsMod(head + 1, FIFO_SIZE);
      ItemsPop(entries[..], head, items);
      data := Some(entries[head]);
      head := head + 1;
      head := head % FIFO_SIZE;
      items := items - 1;
      if head == tail {
        isEmpty := true;
      }
      isFull := false;
    }
  }

  // ---- Pools of request objects ----------------------------------------------------------------------------

  /** A pool over n request objects: the indices of the free ones, in a queue of n slots. */
  class Pool {
    const free: Queue<nat>
    const inUse: array<bool>

    /** Every object but the last, which no slot is left for, is either in use or queued exactly once. */
    ghost predicate Valid()
      reads this, free, free.objs, inUse
    {
      && free.Shaped() && free.objs.Length == inUse.Length
      && (forall i | 0 <= i < |free.Contents()| :: free.Contents()[i] < inUse.Length - 1 && !inUse[free.Contents()[i]])
      && (forall i, j | 0 <= i < j < |free.Contents()| :: free.Contents()[i] != free.Contents()[j])
      && (forall x | 0 <= x < inUse.Length - 1 && !inUse[x] :: x in free.Contents())
    }

    /** init_req_obj: objects are queued until the queue is full, which leaves out the last one. */
    constructor (n: nat)
      requires 0 < n
      ensures Valid() && inUse.Length == n && |free.Contents()| == n - 1
      ensures fresh(free) && fresh(free.objs) && fresh(inUse)
    {
      free := new Queue<nat>(n);
      inUse := new bool[n](_ => false);
      new;
      var i := 0;
      var ok := free.EnQueue(i);
      while ok
        invariant free.Shaped() && fresh(free) && fresh(free.objs) && free.objs.Length == n
        invariant forall x | 0 <= x < n :: !inUse[x]
        invariant if ok then i + 1 < n && |free.Contents()| == i + 1 else i == n - 1 && |free.Contents()| == n - 1
        invariant forall k | 0 <= k < |free.Contents()| :: free.Contents()[k] == k
        decreases n - i, ok
      {
        i := i + 1;
        ok := free.EnQueue(i);
      }
      forall x | 0 <= x < n - 1 ensures x in free.Contents() {
        assert free.Contents()[x] == x;
      }
    }

    /** sys_malloc_req_obj: no object is handed out twice, and one is handed out unless all are in use. */
    method Malloc() returns (req: Option<nat>)
      requires Valid()
      modifies free`head, inUse
      ensures Valid()
      ensures req == None <==> forall x | 0 <= x < inUse.Length - 1 :: old(inUse[x])
      ensures req.Some? ==> req.value < inUse.Length - 1 && !old(inUse[req.value])
      ensures req.Some? ==> inUse[..] == old(inUse[..])[req.value := true]
      ensures req == None ==> inUse[..] == old(inUse[..])
    {
      ghost var was := free.Contents();
      req := free.DeQueue();
      if req.Some? {
        assert req.value == was[0];
        inUse[req.value] := true;
        assert forall i | 0 <= i < |free.Contents()| :: free.Contents()[i] == was[i + 1];
        forall x | 0 <= x < inUse.Length - 1 && !inUse[x] ensures x in free.Contents() {
          var i :| 0 <= i < |was| && was[i] == x;
          assert free.Contents()[i - 1] == x;
        }
      } else {
        assert was == [];
      }
    }

    /** sys_free_req_obj: an object in use returns to the pool; there is always a slot for it. */
    method Free(req: nat)
      requires Valid() && req < inUse.Length - 1 && inUse[req]
      modifies free`tail, free.objs, inUse
      ensures Valid() && inUse[..] == old(inUse[..])[req := false]
    {
      ghost var was := free.Contents();
      FreeBelow(was, inUse.Length - 1, req);
      var ok := free.EnQueue(req);
      inUse[req] := false;
      assert free.Contents() == was + [req];
      forall x | 0 <= x < inUse.Length - 1 && !inUse[x] ensures x in free.Contents() {
        if x == req { assert free.Contents()[|was|] == req; }
      }
    }
  }

  // ---- Pools of flash operations ---------------------------------------------------------------------------

  /** A pool of flash operations: a ring that starts full and is never tested for being empty or full. */
  class OpPool {
    const objs: array<nat>
    var head: nat
    var tail: nat
    ghost var lent: nat

    /** The operations in the pool are distinct; `lent` of them are out. */
    ghost predicate Valid()
      reads this, objs
    {
      && head < objs.Length && tail < objs.Length && lent <= objs.Length
      && tail == Wrap(head + (objs.Length - lent), objs.Length)
      && forall i, j | 0 <= i < j < |Idle()| :: Idle()[i] != Idle()[j]
    }

    ghost function Idle(): seq<nat>
      requires head < objs.Length && lent <= objs.Length
      reads this, objs
    {
      Items(objs[..], head, objs.Length - lent)
    }

    // init_op_obj
    constructor (n: nat)
      requires 0 < n
      ensures Valid() && objs.Length == n && lent == 0 && fresh(objs)
      ensures |Idle()| == n && forall i | 0 <= i < n :: Idle()[i] == i
    {
      objs := new nat[n];
      head, tail, lent := 0, 0, 0;
      new;
      for i := 0 to n
        invariant forall k | 0 <= k < i :: objs[k] == k
        invariant head == tail == lent == 0
      {
        objs[i] := i;
      }
      tail := n;
      tail := tail % n;
      forall i | 0 <= i < n ensures Idle()[i] == i { ItemAt(objs[..], head, n, i); }
    }

    /** malloc_op_obj: as long as not all operations are out, the longest idle one, which nobody else has. */
    method Malloc() returns (op: nat)
      requires Valid() && lent < objs.Length
      modifies this`head, this`lent
      ensures Valid() && lent == old(lent) + 1 && old(Idle()) != []
      ensures op == old(Idle())[0] && Idle() == old(Idle())[1..] && op !in Idle()
    {
      WrapIsMod(head + 1, objs.Length);
      ItemsPop(objs[..], head, objs.Length - lent);
      op := objs[head];
      head := head + 1;
      head := head % objs.Length;
      lent := lent + 1;
      assert forall i | 0 <= i < |Idle()| :: Idle()[i] == old(Idle())[i + 1];
    }

    /** free_op_obj: an operation that is out becomes the last of the idle ones. */
    method Free(op: nat)
      requires Valid() && 0 < lent && op !in Idle()
      modifies this`tail, this`lent, objs
      ensures Valid() && lent == old(lent) - 1 && Idle() == old(Idle()) + [op]
    {
      WrapIsMod(tail + 1, objs.Length);
      ItemsPush(objs[..], head, objs.Length - lent, op);
      objs[tail] := op;
      tail := tail + 1;
      tail := tail % objs.Length;
      lent := lent - 1;
    }
  }

  /** The pool of program operations: the filling loop writes every operation to slot 0, so only the last one is in
      the ring and the other slots keep the null pointers they start with. */
  method FillProgramOps(objs: array<Option<nat>>)
    requires 0 < objs.Length
    modifies objs
    ensures objs[..] == old(objs[..])[0 := Some(objs.Length - 1)]
  {
    for i := 0 to objs.Length
      invariant objs[..] == if i == 0 then old(objs[..]) else old(objs[..])[0 := Some(i - 1)]
    {
      objs[0] := Some(i);
    }
  }

  // The slots once these operations have been returned, the first of them to slot 0.
  function Returned(slots: seq<Option<nat>>, back: seq<Option<nat>>): (r: seq<Option<nat>>)
    requires |back| <= |slots|
    ensures |r| == |slots|
  {
    if back == [] then slots
    else Returned(slots, back[..|back| - 1])[|back| - 1 := back[|back| - 1]]
  }

  lemma {:induction false} ReturnedAt(slots: seq<Option<nat>>, back: seq<Option<nat>>, k: nat)
    requires |back| <= |slots| && k < |slots|
    ensures Returned(slots, back)[k] == if k < |back| then back[k] else slots[k]
  {
    if back != [] { ReturnedAt(slots, back[..|back| - 1], k); }
  }

  /** From a pool filled that way, allocation k hands out slot k, after at most k operations have been returned: the
      first is the last operation, and all others until the ring has turned once are null. */
  lemma ProgramOpIsNullIff(slots: seq<Option<nat>>, back: seq<Option<nat>>, k: nat)
    requires |back| <= k < |slots| && forall i | 0 <= i < |slots| :: slots[i] == None
    ensures Returned(slots[0 := Some(|slots| - 1)], back)[k] == None <==> 0 < k
  {
    ReturnedAt(slots[0 := Some(|slots| - 1)], back, k);
  }

  // Distinct numbers below n, one of which is missing, are fewer than n.
  lemma {:induction false} FreeBelow(xs: seq<nat>, n: nat, missing: nat)
    requires missing < n && missing !in xs
    requires (forall i | 0 <= i < |xs| :: xs[i] < n) && forall i, j | 0 <= i < j < |xs| :: xs[i] != xs[j]
    ensures |xs| < n
  {
    var s := set i | 0 <= i < |xs| :: xs[i];
    DistinctSize(xs);
    assert s <= Below(n) - {missing};
    SubsetSize(s, Below(n) - {missing});
  }

  lemma {:induction false} DistinctSize(xs: seq<nat>)
    requires forall i, j | 0 <= i < j < |xs| :: xs[i] != xs[j]
    ensures |set i | 0 <= i < |xs| :: xs[i]| == |xs|
  {
    if xs != [] {
      var n := |xs| - 1;
      DistinctSize(xs[..n]);
      assert (set i | 0 <= i < |xs| :: xs[i]) == (set i | 0 <= i < n :: xs[..n][i]) + {xs[n]};
    }
  }

  function Below(n: nat): (s: set<nat>)
    ensures |s| == n && forall k :: k in s <==> 0 <= k < n
  {
    if n == 0 then {} else Below(n - 1) + {n - 1}
  }

  lemma {:induction false} SubsetSize(a: set<nat>, b: set<nat>)
    requires a <= b
    ensures |a| <= |b|
    decreases |a|
  {
    if x :| x in a {
      SubsetSize(a - {x}, b - {x});
    }
  }
}
