/** The device loses no request and always comes to rest: every queued request is looked at again when the page buffer
    becomes free, and every step of the two threads brings the device closer to rest. */
module DeviceProgress {
  import opened MappingTables
  import opened EqualPages
  import opened WholeDevice

  // ---- No request is forgotten -------------------------------------------------------------------

  /** While the buffer is free, a queued request is about to be looked at. */
  predicate Attentive<P>(s: Device<P>) {
    && (!s.inUse && s.rq != [] ==> s.pc.Scan? && Reads in s.pc.todo)
    && (!s.inUse && s.wq != [] ==> s.pc.Scan? && Writes in s.pc.todo)
  }

  lemma ScanAttentive<P>(c: Setup<P>, s: Device<P>)
    requires Good(c, s) && Attentive(s) && s.pc.Scan?
    ensures Attentive(Step(c, s, NvmeStep))
  {
    hide Requests, Delivered, NvmeHolds, QueueHolds, FtlHolds, DoneHolds, Clean, FillWbc;
    if s.pc.todo != [] {
      assert s.pc.todo == [s.pc.todo[0]] + s.pc.todo[1..];
    }
  }

  lemma StepAttentive<P>(c: Setup<P>, s: Device<P>, ev: Event<P>)
    requires Good(c, s) && Enabled(c, s, ev) && Attentive(s)
    ensures Attentive(Step(c, s, ev))
  {
    hide Requests, Delivered, NvmeHolds, QueueHolds, FtlHolds, DoneHolds, Clean, FillWbc, ClearWbc, MapAll, FreePages;
    hide ToProgram, Content;
    if ev == NvmeStep && s.pc.Scan? {
      ScanAttentive(c, s);
    }
  }

  // ---- Who gets the freed buffer ---------------------------------------------------------------------

  // What the NVMe thread is left with once it has offered the buffer to one kind of request and then to the other.
  ghost predicate OffersBuffer<P>(c: Setup<P>, s: Device<P>, first: WholeDevice.Kind)
    requires Good(c, s) && s.pc.Scan?
  {
    StepKeeps(c, s, NvmeStep);
    var t := Step(c, s, NvmeStep);
    var second := if first == Reads then Writes else Reads;
    if Waits(s, first) then GivesTo(s, t, first)
    else
      && t.pc.Scan? && Waits(t, second) == Waits(s, second)
      && (Waits(s, second) ==> GivesTo(s, Step(c, t, NvmeStep), second))
  }

  predicate Waits<P>(s: Device<P>, kind: WholeDevice.Kind) { if kind == Reads then s.rq != [] else s.wq != [] }

  // The oldest request of the kind has the buffer, the others wait on in order.
  ghost predicate GivesTo<P>(s: Device<P>, t: Device<P>, kind: WholeDevice.Kind)
    requires Waits(s, kind)
  {
    if kind == Reads
    then t.toFtl == s.toFtl + [ReadMsg(s.rq[0])] && t.rq == s.rq[1..] && t.wq == s.wq && t.log == s.log
    else t.pc.CopyIn? && t.pc.w == s.wq[0] && t.log == s.log + [s.wq[0]] && t.wq == s.wq[1..] && t.rq == s.rq
  }

  lemma ScanOffers<P>(c: Setup<P>, s: Device<P>, first: WholeDevice.Kind)
    requires Good(c, s) && s.pc.Scan? && !s.inUse
    requires s.pc.todo == [first, if first == Reads then Writes else Reads]
    ensures OffersBuffer(c, s, first)
  {
    hide Requests, Delivered, NvmeHolds, QueueHolds, FtlHolds, DoneHolds, Clean, FillWbc;
    StepKeeps(c, s, NvmeStep);
  }

  /** A returned read frees the buffer, which goes to the oldest queued read if there is one, and otherwise to the
      oldest queued write. */
  lemma ReadsGoOn<P>(c: Setup<P>, s: Device<P>)
    requires Good(c, s) && s.pc.CopyOut? && |s.pc.got| == s.pc.r.n
    ensures var t := Step(c, s, NvmeStep);
            Good(c, t) && t.pc.Scan? && t.rq == s.rq && t.wq == s.wq && OffersBuffer(c, t, Reads)
  {
    hide Requests, Delivered, QueueHolds, FtlHolds, DoneHolds, Clean, FillWbc, OffersBuffer;
    StepKeeps(c, s, NvmeStep);
    ScanOffers(c, Step(c, s, NvmeStep), Reads);
  }

  /** A finished flush frees it, and it goes to the oldest queued write if there is one, and otherwise to the oldest
      queued read. */
  lemma WritesGoOn<P>(c: Setup<P>, s: Device<P>)
    requires Good(c, s) && Enabled(c, s, TakeDone) && s.fromFtl[0].FlushMsg?
    ensures var t := Step(c, s, TakeDone);
            Good(c, t) && t.pc.Scan? && t.rq == s.rq && t.wq == s.wq && OffersBuffer(c, t, Writes)
  {
    hide Requests, Delivered, QueueHolds, FtlHolds, DoneHolds, Clean, FillWbc, ClearWbc, OffersBuffer;
    StepKeeps(c, s, TakeDone);
    ScanOffers(c, Step(c, s, TakeDone), Writes);
  }

  // ---- Something can always happen -----------------------------------------------------------------

  predicate Idle<P>(s: Device<P>) { s.pc.Waiting? && s.rq == [] && s.wq == [] && !s.inUse }

  predicate Internal<P>(ev: Event<P>) { !ev.ArriveRead? && !ev.ArriveWrite? && !ev.ArriveFlush? }

  // There is a free flash page for every page of the flush that waits, if one does.
  ghost predicate Room<P>(c: Setup<P>, s: Device<P>) {
    s.toFtl != [] && s.toFtl[0].FlushMsg? ==> c.g.Valid() && |ToProgram(s.wbc, s.num)| <= FreePages(c.g, s.media.t)
  }

  // A step one of the threads can take.
  ghost function NextStep<P>(s: Device<P>): Event<P> {
    if !s.pc.Waiting? then NvmeStep
    else if s.fromFtl != [] then TakeDone
    else if s.ftl.Reading? && exists i: nat :: i < s.ftl.r.n && i !in s.ftl.done then
      var i: nat :| i < s.ftl.r.n && i !in s.ftl.done; FtlPage(i)
    else if s.ftl.Flushing? && exists i: nat :: i < |s.ftl.ppas| && i !in s.ftl.done then
      var i: nat :| i < |s.ftl.ppas| && i !in s.ftl.done; FtlPage(i)
    else if !s.ftl.Resting? then FtlFinish
    else FtlTake
  }

  /** Unless it is idle, or the flash is full, some thread can take a step without any new command. */
  lemma NeverStalls<P>(c: Setup<P>, s: Device<P>)
    requires Good(c, s) && Attentive(s) && Room(c, s)
    ensures Idle(s) || (Internal(NextStep(s)) && Enabled(c, s, NextStep(s)))
  {
    hide Requests, Delivered, NvmeHolds, QueueHolds, FtlHolds, DoneHolds, Clean, FreePages, ToProgram;
  }

  // ---- Every step counts -----------------------------------------------------------------------------

  // The steps a queued request may still take.
  function ReadSteps(r: ReadReq): nat { 2 * r.n + 10 }

  function WriteSteps<P>(w: WriteReq<P>): nat { 2 * |w.data| + 10 }

  function ReadsLeft(rq: seq<ReadReq>): nat { if rq == [] then 0 else ReadSteps(rq[0]) + ReadsLeft(rq[1..]) }

  function WritesLeft<P>(wq: seq<WriteReq<P>>): nat { if wq == [] then 0 else WriteSteps(wq[0]) + WritesLeft(wq[1..]) }

  function LastSize<P>(s: Device<P>): nat { if s.log == [] then 0 else |s.log[|s.log| - 1].data| }

  function PcLeft<P>(s: Device<P>): int {
    match s.pc
    case Waiting => 0
    case Scan(todo) => |todo| + 1
    case CopyIn(w, i, todo) => |todo| + 1 + (|w.data| - i) + |w.data| + 9
    case Posting(todo) => |todo| + 2
    case CopyOut(r, got) => r.n - |got| + 5
  }

  function MsgLeft<P>(s: Device<P>, m: Msg, queued: bool): int {
    match m
    case ReadMsg(r) => if queued then 2 * r.n + 8 else r.n + 6
    case FlushMsg => if queued then LastSize(s) + 7 else 5
  }

  function FtlLeft(ftl: FtlPc): int {
    match ftl
    case Resting => 0
    case Reading(r, done) => 2 * r.n + 7 - |done|
    case Flushing(ppas, done) => |ppas| + 6 - |done|
  }

  /** What is left to do, counted in steps. */
  function Left<P>(s: Device<P>): int {
    ReadsLeft(s.rq) + WritesLeft(s.wq) + PcLeft(s) + FtlLeft(s.ftl)
    + (if s.toFtl == [] then 0 else MsgLeft(s, s.toFtl[0], true))
    + (if s.fromFtl == [] then 0 else MsgLeft(s, s.fromFtl[0], false))
  }

  // The pages done are pages of the request.
  ghost predicate Counted<P>(s: Device<P>) {
    match s.ftl
    case Resting => true
    case Reading(r, done) => |done| <= r.n && forall i | i in done :: i < r.n
    case Flushing(ppas, done) => |done| <= |ppas| == LastSize(s) && forall i | i in done :: i < |ppas|
  }

  lemma {:induction false} FewBelow(done: set<nat>, n: nat)
    requires forall i | i in done :: i < n
    ensures |done| <= n
    ensures (forall i | 0 <= i < n :: i in done) ==> |done| == n
  {
    if n == 0 {
      assert done == {};
    } else {
      var rest := done - {n - 1};
      FewBelow(rest, n - 1);
      if n - 1 in done { assert done == rest + {n - 1}; } else { assert done == rest; }
    }
  }

  lemma NextRead(rq: seq<ReadReq>)
    requires rq != []
    ensures ReadsLeft(rq) == ReadSteps(rq[0]) + ReadsLeft(rq[1..])
  {
  }

  lemma NextWrite<P>(wq: seq<WriteReq<P>>)
    requires wq != []
    ensures WritesLeft(wq) == WriteSteps(wq[0]) + WritesLeft(wq[1..])
  {
  }

  lemma TakeReadLess<P>(c: Setup<P>, s: Device<P>)
    requires Good(c, s) && Counted(s) && Handover(s) && s.pc.todo[0] == Reads
    ensures Left(Step(c, s, NvmeStep)) < Left(s) && Counted(Step(c, s, NvmeStep))
  {
    hide Requests, Delivered, NvmeHolds, QueueHolds, FtlHolds, DoneHolds, Clean, ReadsLeft, WritesLeft, LastSize;
    NextRead(s.rq);
    assert s.toFtl == [];
  }

  lemma TakeWriteLess<P>(c: Setup<P>, s: Device<P>)
    requires Good(c, s) && Counted(s) && Handover(s) && s.pc.todo[0] == Writes
    ensures Left(Step(c, s, NvmeStep)) < Left(s) && Counted(Step(c, s, NvmeStep))
  {
    hide Requests, Delivered, NvmeHolds, QueueHolds, FtlHolds, DoneHolds, Clean, ReadsLeft, WritesLeft, FillWbc;
    NextWrite(s.wq);
  }

  lemma ScanLess<P>(c: Setup<P>, s: Device<P>)
    requires Good(c, s) && Counted(s) && s.pc.Scan?
    ensures Left(Step(c, s, NvmeStep)) < Left(s) && Counted(Step(c, s, NvmeStep))
  {
    hide Requests, Delivered, NvmeHolds, QueueHolds, FtlHolds, DoneHolds, Clean, TakeWrite, ReadsLeft, WritesLeft;
    if Handover(s) {
      if s.pc.todo[0] == Reads { TakeReadLess(c, s); } else { TakeWriteLess(c, s); }
    }
  }

  lemma CopyLess<P>(c: Setup<P>, s: Device<P>)
    requires Good(c, s) && Counted(s) && !s.pc.Waiting? && !s.pc.Scan?
    ensures Left(Step(c, s, NvmeStep)) < Left(s) && Counted(Step(c, s, NvmeStep))
  {
    hide Requests, Delivered, QueueHolds, FtlHolds, DoneHolds, Replay, Flat, FillWbc, ReadsLeft, WritesLeft, ScanStep;
  }

  lemma NvmeLess<P>(c: Setup<P>, s: Device<P>)
    requires Good(c, s) && Counted(s) && !s.pc.Waiting?
    ensures Left(Step(c, s, NvmeStep)) < Left(s) && Counted(Step(c, s, NvmeStep))
  {
    hide Good, Left, Counted, Step;
    if s.pc.Scan? { ScanLess(c, s); } else { CopyLess(c, s); }
  }

  lemma FtlTakeLess<P>(c: Setup<P>, s: Device<P>)
    requires Good(c, s) && Counted(s) && Enabled(c, s, FtlTake)
    ensures Left(Step(c, s, FtlTake)) < Left(s) && Counted(Step(c, s, FtlTake))
  {
    hide Delivered, NvmeHolds, FtlHolds, DoneHolds, Replay, Flat, ToProgram, ReadsLeft, WritesLeft, MapAll, FreePages;
    hide Core;
    if s.toFtl[0].FlushMsg? { FlushTaken(c, s); }
  }

  lemma FtlPageLess<P>(c: Setup<P>, s: Device<P>, i: nat)
    requires Good(c, s) && Counted(s) && Enabled(c, s, FtlPage(i))
    ensures Left(Step(c, s, FtlPage(i))) < Left(s) && Counted(Step(c, s, FtlPage(i)))
  {
    hide Requests, Delivered, NvmeHolds, QueueHolds, DoneHolds, FtlHolds, Replay, Flat, ReadsLeft, WritesLeft, Content;
    FewBelow(s.ftl.done + {i}, if s.ftl.Reading? then s.ftl.r.n else |s.ftl.ppas|);
  }

  lemma FtlFinishLess<P>(c: Setup<P>, s: Device<P>)
    requires Good(c, s) && Counted(s) && Enabled(c, s, FtlFinish)
    ensures Left(Step(c, s, FtlFinish)) < Left(s) && Counted(Step(c, s, FtlFinish))
  {
    hide Requests, Delivered, NvmeHolds, QueueHolds, FtlHolds, DoneHolds, Replay, Flat, ReadsLeft, WritesLeft;
    FewBelow(s.ftl.done, if s.ftl.Reading? then s.ftl.r.n else |s.ftl.ppas|);
  }

  lemma TakeDoneLess<P>(c: Setup<P>, s: Device<P>)
    requires Good(c, s) && Counted(s) && Enabled(c, s, TakeDone)
    ensures Left(Step(c, s, TakeDone)) < Left(s) && Counted(Step(c, s, TakeDone))
  {
    hide Requests, Delivered, NvmeHolds, QueueHolds, FtlHolds, DoneHolds, Replay, Flat, ReadsLeft, WritesLeft, ClearWbc;
  }

  /** Every step other than the arrival of a command brings the device nearer to rest. */
  lemma InternalStepsEnd<P>(c: Setup<P>, s: Device<P>, ev: Event<P>)
    requires Good(c, s) && Counted(s) && Internal(ev) && Enabled(c, s, ev)
    ensures 0 <= Left(Step(c, s, ev)) < Left(s) && Counted(Step(c, s, ev))
  {
    hide Step, Left, Good, Counted;
    match ev {
      case NvmeStep => NvmeLess(c, s);
      case TakeDone => TakeDoneLess(c, s);
      case FtlTake => FtlTakeLess(c, s);
      case FtlPage(i) => FtlPageLess(c, s, i);
      case FtlFinish => FtlFinishLess(c, s);
    }
    StepKeeps(c, s, ev);
    LeftNotNegative(c, Step(c, s, ev));
  }

  lemma LeftNotNegative<P>(c: Setup<P>, s: Device<P>)
    requires Good(c, s) && Counted(s)
    ensures 0 <= Left(s)
  {
    hide Requests, Delivered, QueueHolds, FtlHolds, DoneHolds, Replay, Flat, ReadsLeft, WritesLeft;
  }

  lemma {:induction false} InternalRunIsShort<P>(c: Setup<P>, s: Device<P>, evs: seq<Event<P>>)
    requires Good(c, s) && Counted(s) && AllEnabled(c, s, evs) && forall i | 0 <= i < |evs| :: Internal(evs[i])
    ensures |evs| <= Left(s) - Left(RunAll(c, s, evs)) && Counted(RunAll(c, s, evs))
    decreases |evs|
  {
    hide Step, Left, Good, Counted, Enabled;
    if evs != [] {
      InternalStepsEnd(c, s, evs[0]);
      StepKeeps(c, s, evs[0]);
      InternalRunIsShort(c, Step(c, s, evs[0]), evs[1..]);
    }
  }

  lemma ArriveCounted<P>(c: Setup<P>, s: Device<P>, ev: Event<P>)
    requires Good(c, s) && Counted(s) && Enabled(c, s, ev) && !Internal(ev)
    ensures Counted(Step(c, s, ev))
  {
    hide Good, Content, MapAll, FreePages, ToProgram, FtlTakeOf, FtlPageOf, NvmeStepOf, TakeDoneOf, Accepted;
  }

  lemma StepCounted<P>(c: Setup<P>, s: Device<P>, ev: Event<P>)
    requires Good(c, s) && Counted(s) && Enabled(c, s, ev)
    ensures Counted(Step(c, s, ev))
  {
    hide *;
    if Internal(ev) {
      InternalStepsEnd(c, s, ev);
    } else {
      ArriveCounted(c, s, ev);
    }
  }

  /** Every state a device reaches is attentive, so it is idle or can take a step, and after a bounded number of steps
      without a new command it is idle. */
  lemma {:induction false} ReachedAttentive<P>(c: Setup<P>, s: Device<P>, evs: seq<Event<P>>)
    requires Good(c, s) && Attentive(s) && Counted(s) && AllEnabled(c, s, evs)
    ensures Attentive(RunAll(c, s, evs)) && Counted(RunAll(c, s, evs))
    ensures Room(c, RunAll(c, s, evs)) && !Idle(RunAll(c, s, evs)) ==>
              exists ev :: Internal(ev) && Enabled(c, RunAll(c, s, evs), ev)
    decreases |evs|
  {
    hide Good, Attentive, Counted, Enabled, Step, Internal, Idle, Room;
    if evs == [] {
      if Room(c, s) { NeverStalls(c, s); }
    } else {
      StepAttentive(c, s, evs[0]);
      StepCounted(c, s, evs[0]);
      StepKeeps(c, s, evs[0]);
      ReachedAttentive(c, Step(c, s, evs[0]), evs[1..]);
    }
  }

  lemma StartAttentive<P>(c: Setup<P>, s: Device<P>)
    requires Starts(c, s)
    ensures Attentive(s) && Counted(s) && Idle(s) && Left(s) == 0
  {
    hide Sound, Flat;
  }
}
