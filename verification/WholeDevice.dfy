/** The whole device as one machine: the NVMe thread with its request queues and its single page buffer, the queues
    between it and the translation layer, and the flash. The two threads interleave at every page. */
module WholeDevice {
  import opened Geometry
  import opened MappingTables
  import opened NandIo
  import opened EqualPages

  // ---- What the host asks for ----------------------------------------------------------------

  datatype ReadReq = ReadReq(slba: nat, n: nat, since: nat)
  datatype WriteReq<P> = WriteReq(slba: nat, data: seq<P>)

  const U64 := 0x1_0000_0000_0000_0000

  // The request checks of the front end, with the sum in 64 bits; nlbs is the number of pages less one.
  predicate Accepted(slba: nat, nlbs: nat, nsze: nat) { (slba + nlbs) % U64 <= nsze && nlbs < WBC_PAGES }

  predicate InNamespace(slba: nat, nlbs: nat, nsze: nat) { slba + (nlbs + 1) <= nsze }

  /** The check lets every request through that lies within the namespace and names at most 16 pages, and an accepted
      request lies within it exactly when the sum does not wrap and the request does not end one page past it. */
  lemma AcceptedInNamespaceIff(slba: nat, nlbs: nat, nsze: nat)
    requires slba < U64 && nsze < U64
    ensures InNamespace(slba, nlbs, nsze) && nlbs < WBC_PAGES ==> Accepted(slba, nlbs, nsze)
    ensures Accepted(slba, nlbs, nsze) ==>
              (InNamespace(slba, nlbs, nsze) <==> slba + nlbs < U64 && slba + nlbs != nsze)
  {
    if slba + nlbs < U64 {
      SmallSum(slba + nlbs);
    }
  }

  lemma SmallSum(n: nat)
    requires n < U64
    ensures n % U64 == n
  {
  }

  /** Both failures occur: the last address with two pages, and one page at the end of the namespace. */
  lemma AcceptedOutside(nsze: nat)
    ensures Accepted(U64 - 1, 1, nsze) && (nsze < U64 ==> !InNamespace(U64 - 1, 1, nsze))
    ensures nsze < U64 ==> Accepted(nsze, 0, nsze) && !InNamespace(nsze, 0, nsze)
  {
  }

  // ---- The disk the host sees ----------------------------------------------------------------

  function Overwrite<P>(disk: seq<P>, w: WriteReq<P>): (d: seq<P>)
    ensures |d| == |disk|
  {
    seq(|disk|, l requires 0 <= l < |disk| => if w.slba <= l < w.slba + |w.data| then w.data[l - w.slba] else disk[l])
  }

  function Replay<P>(disk: seq<P>, log: seq<WriteReq<P>>): (d: seq<P>)
    ensures |d| == |disk|
  {
    if log == [] then disk else Overwrite(Replay(disk, log[..|log| - 1]), log[|log| - 1])
  }

  predicate Covers<P>(w: WriteReq<P>, l: nat) { w.slba <= l < w.slba + |w.data| }

  ghost predicate LastWrite<P>(disk: seq<P>, log: seq<WriteReq<P>>, l: nat, j: nat) {
    && l < |disk| && j < |log| && Covers(log[j], l)
    && Replay(disk, log)[l] == log[j].data[l - log[j].slba]
    && forall i | j < i < |log| :: !Covers(log[i], l)
  }

  /** A page reads as the last write that covers it. */
  lemma {:induction false} ReplayIsLastWrite<P>(disk: seq<P>, log: seq<WriteReq<P>>, l: nat, k: nat)
    requires l < |disk| && k < |log| && Covers(log[k], l)
    ensures exists j :: k <= j && LastWrite(disk, log, l, j)
  {
    var n := |log| - 1;
    if Covers(log[n], l) {
      assert LastWrite(disk, log, l, n);
    } else {
      ReplayIsLastWrite(disk, log[..n], l, k);
      var j :| k <= j && LastWrite(disk, log[..n], l, j);
      LastWriteStays(disk, log, l, j);
    }
  }

  lemma LastWriteStays<P>(disk: seq<P>, log: seq<WriteReq<P>>, l: nat, j: nat)
    requires log != [] && LastWrite(disk, log[..|log| - 1], l, j) && !Covers(log[|log| - 1], l)
    ensures LastWrite(disk, log, l, j)
  {
    forall i | j < i < |log| ensures !Covers(log[i], l) {
      if i < |log| - 1 { assert log[..|log| - 1][i] == log[i]; }
    }
  }

  // ---- State ----------------------------------------------------------------------------------

  datatype Kind = Reads | Writes

  /** Where the NVMe thread is: waiting for a call-back; in the loops that hand the buffer to queued requests;
      copying a write's pages in from the host; about to post a write's completion; copying a read's pages out. */
  datatype NvmePc<P> =
    | Waiting
    | Scan(todo: seq<Kind>)
    | CopyIn(w: WriteReq<P>, i: nat, todo: seq<Kind>)
    | Posting(todo: seq<Kind>)
    | CopyOut(r: ReadReq, got: seq<P>)

  datatype Msg = ReadMsg(r: ReadReq) | FlushMsg

  datatype FtlPc = Resting | Reading(r: ReadReq, done: set<nat>) | Flushing(ppas: seq<Ppa>, done: set<nat>)

  datatype Returned<P> = Returned(r: ReadReq, data: seq<P>, n: nat)

  /** `polls` counts the scheduled doorbell polls and `arm` says that another is scheduled once the loops end.
      History: `log` lists the writes in the order in which they got the buffer, of which the first `posted` have
      their completions posted; `settled` is the medium when the buffer last changed hands; `out` lists the reads
      returned, each with the length of the log then; `refused` counts the requests that failed their checks. */
  datatype Device<P> = Device(
    polls: nat,
    arm: bool,
    rq: seq<ReadReq>,
    wq: seq<WriteReq<P>>,
    inUse: bool,
    wbc: seq<WbcPage>,
    num: nat,
    buf: seq<P>,
    pc: NvmePc<P>,
    toFtl: seq<Msg>,
    fromFtl: seq<Msg>,
    ftl: FtlPc,
    media: Media<P>,
    log: seq<WriteReq<P>>,
    posted: nat,
    settled: Media<P>,
    out: seq<Returned<P>>,
    refused: nat)

  datatype Event<P> =
    | ArriveRead(slba: nat, nlbs: nat)
    | ArriveWrite(slba: nat, data: seq<P>)
    | ArriveFlush
    | TakeDone
    | NvmeStep
    | FtlTake
    | FtlPage(i: nat)
    | FtlFinish

  // ---- The page buffer and the write-back cache --------------------------------------------------

  // get_write_io_buffer: entries 0 .. n - 1 become the request's pages.
  function FillWbc(wbc: seq<WbcPage>, slba: nat, n: nat): (r: seq<WbcPage>)
    requires n <= |wbc|
    ensures |r| == |wbc|
  {
    seq(|wbc|, i requires 0 <= i < |wbc| => if i < n then WbcPage(slba + i, i, true) else wbc[i])
  }

  // free_wbc_buffer
  function ClearWbc(wbc: seq<WbcPage>): (r: seq<WbcPage>)
    ensures |r| == |wbc| && NoneValid(r)
  {
    seq(|wbc|, i requires 0 <= i < |wbc| => wbc[i].(valid := false))
  }

  predicate NoneValid(wbc: seq<WbcPage>) { forall i | 0 <= i < |wbc| :: !wbc[i].valid }

  predicate HoldsWrite(wbc: seq<WbcPage>, slba: nat, n: nat) {
    && n <= |wbc|
    && (forall i | 0 <= i < n :: wbc[i] == WbcPage(slba + i, i, true))
    && (forall i | n <= i < |wbc| :: !wbc[i].valid)
  }

  function Entries(slba: nat, n: nat): seq<WbcPage> { seq(n, i requires 0 <= i => WbcPage(slba + i, i, true)) }

  /** The flush programs exactly the pages of the write that filled the cache, whatever was there before. */
  lemma {:induction false} FlushesTheWrite(wbc: seq<WbcPage>, slba: nat, n: nat, num: nat)
    requires HoldsWrite(wbc, slba, n) && 0 < num
    ensures ToProgram(wbc, num) == Entries(slba, n)
  {
    if wbc != [] {
      var k := |wbc| - 1;
      if k < n {
        FlushesTheWrite(wbc[..k], slba, k, num);
        assert n == k + 1;
        assert Entries(slba, n) == Entries(slba, k) + [wbc[k]];
      } else {
        FlushesTheWrite(wbc[..k], slba, n, num);
      }
    } else {
      assert Entries(slba, n) == [];
    }
  }

  // ---- Steps ------------------------------------------------------------------------------------

  // get_write_io_buffer for the head of the write queue.
  function TakeWrite<P>(s: Device<P>, w: WriteReq<P>, todo: seq<Kind>): Device<P>
    requires s.wq != [] && |w.data| <= |s.wbc|
  {
    s.(wq := s.wq[1..], inUse := true, wbc := FillWbc(s.wbc, w.slba, |w.data|), num := |w.data|,
       pc := CopyIn(w, 0, todo), log := s.log + [w], settled := s.media)
  }

  function ScanStep<P>(s: Device<P>): Device<P>
    requires s.pc.Scan? && forall i | 0 <= i < |s.wq| :: |s.wq[i].data| <= |s.wbc|
  {
    var todo := s.pc.todo;
    if todo == [] then
      s.(pc := Waiting, polls := s.polls + (if s.arm then 1 else 0), arm := false)
    else if s.inUse || (todo[0] == Reads && s.rq == []) || (todo[0] == Writes && s.wq == []) then
      s.(pc := Scan(todo[1..]))
    else match todo[0]
      case Reads => s.(rq := s.rq[1..], inUse := true, toFtl := s.toFtl + [ReadMsg(s.rq[0])], settled := s.media)
      case Writes => TakeWrite(s, s.wq[0], todo)
  }

  function NvmeStepOf<P>(s: Device<P>): Device<P>
    requires forall i | 0 <= i < |s.wq| :: |s.wq[i].data| <= |s.wbc|
    requires s.pc.CopyIn? ==> |s.pc.w.data| <= |s.buf|
    requires s.pc.CopyOut? ==> s.pc.r.n <= |s.buf|
  {
    match s.pc
    case Waiting => s
    case Scan(_) => ScanStep(s)
    case CopyIn(w, i, todo) =>
      if i < |w.data| then s.(buf := s.buf[i := w.data[i]], pc := CopyIn(w, i + 1, todo))
      else s.(toFtl := s.toFtl + [FlushMsg], pc := Posting(todo))
    case Posting(todo) => s.(posted := s.posted + 1, pc := Scan(todo))
    case CopyOut(r, got) =>
      if |got| < r.n then s.(pc := CopyOut(r, got + [s.buf[|got|]]))
      else s.(inUse := false, out := s.out + [Returned(r, got, |s.log|)], pc := Scan([Reads, Writes]), arm := true)
  }

  function TakeDoneOf<P>(s: Device<P>): Device<P>
    requires s.fromFtl != []
  {
    match s.fromFtl[0]
    case ReadMsg(r) => s.(fromFtl := s.fromFtl[1..], pc := CopyOut(r, []))
    case FlushMsg => s.(fromFtl := s.fromFtl[1..], inUse := false, wbc := ClearWbc(s.wbc), settled := s.media,
      pc := Scan([Writes, Reads]), arm := true)
  }

  // The request passes the range check only because the sum wraps; its pages are not in the mapping table at all.
  predicate WrapsIn(slba: nat, nlbs: nat, nsze: nat) { U64 <= slba + nlbs && Accepted(slba, nlbs, nsze) }

  ghost predicate Enabled<P>(c: Setup<P>, s: Device<P>, ev: Event<P>) {
    match ev
    case ArriveRead(slba, nlbs) => s.pc.Waiting? && 0 < s.polls && !WrapsIn(slba, nlbs, c.nsze)
    case ArriveWrite(slba, data) => s.pc.Waiting? && 0 < s.polls && 0 < |data| && !WrapsIn(slba, |data| - 1, c.nsze)
    case ArriveFlush => s.pc.Waiting? && 0 < s.polls
    case TakeDone => s.pc.Waiting? && s.fromFtl != []
    case NvmeStep => !s.pc.Waiting?
    case FtlTake =>
      && s.ftl.Resting? && s.toFtl != []
      && (s.toFtl[0].FlushMsg? ==> c.g.Valid() && |ToProgram(s.wbc, s.num)| <= FreePages(c.g, s.media.t))
    case FtlPage(i) =>
      || (s.ftl.Reading? && i < s.ftl.r.n && i !in s.ftl.done)
      || (s.ftl.Flushing? && i < |s.ftl.ppas| && i !in s.ftl.done)
    case FtlFinish =>
      || (s.ftl.Reading? && forall i | 0 <= i < s.ftl.r.n :: i in s.ftl.done)
      || (s.ftl.Flushing? && forall i | 0 <= i < |s.ftl.ppas| :: i in s.ftl.done)
  }

  function Refuse<P>(s: Device<P>): Device<P>
    requires 0 < s.polls
  {
    s.(polls := s.polls - 1, refused := s.refused + 1)
  }

  // ---- Invariant ---------------------------------------------------------------------------------

  /** The device's fixed parts: geometry, namespace size, the content of unwritten pages, the disk at the start. */
  datatype Setup<P> = Setup(g: Geometry, nsze: nat, zero: P, disk: seq<P>)

  predicate ReadFits(lpns: nat, r: ReadReq) { r.n <= WBC_PAGES && r.slba + r.n <= lpns }

  predicate WriteFits<P>(lpns: nat, w: WriteReq<P>) { 0 < |w.data| <= WBC_PAGES && w.slba + |w.data| <= lpns }

  ghost predicate Requests<P>(c: Setup<P>, s: Device<P>) {
    && c.nsze < |c.disk| && c.nsze < U32
    && |s.buf| == |s.wbc| == WBC_PAGES
    && (forall i | 0 <= i < |s.rq| :: ReadFits(|c.disk|, s.rq[i]) && s.rq[i].since <= s.posted)
    && (forall i | 0 <= i < |s.wq| :: WriteFits(|c.disk|, s.wq[i]))
    && (forall i | 0 <= i < |s.log| :: WriteFits(|c.disk|, s.log[i]))
    && |s.log| == s.posted + (if s.pc.CopyIn? || s.pc.Posting? then 1 else 0)
  }

  /** At most one request is between the front end and the translation layer, and it owns the page buffer. */
  predicate Alone<P>(s: Device<P>) {
    |s.toFtl| + |s.fromFtl| + (if s.ftl.Resting? then 0 else 1) + (if s.pc.CopyIn? || s.pc.CopyOut? then 1 else 0)
    == if s.inUse then 1 else 0
  }

  ghost predicate ReadHere<P>(c: Setup<P>, s: Device<P>, r: ReadReq) {
    ReadFits(|c.disk|, r) && r.since <= s.posted == |s.log|
  }

  function Slice<P>(disk: seq<P>, slba: nat, n: nat): seq<P>
    requires slba + n <= |disk|
  {
    disk[slba..slba + n]
  }

  ghost predicate Delivered<P>(c: Setup<P>, s: Device<P>) {
    forall i | 0 <= i < |s.out| :: ReturnedRight(c, s.log, s.posted, s.out[i])
  }

  /** The read returned the disk after the first n writes, and those include every write whose completion had been
      posted when the read was submitted. */
  ghost predicate ReturnedRight<P>(c: Setup<P>, log: seq<WriteReq<P>>, posted: nat, o: Returned<P>) {
    && o.r.since <= o.n <= |log|
    && o.r.slba + o.r.n <= |c.disk|
    && o.data == Slice(Replay(c.disk, log[..o.n]), o.r.slba, o.r.n)
  }

  // No write is under way: the medium holds everything written.
  ghost predicate Clean<P>(c: Setup<P>, s: Device<P>) {
    && s.media == s.settled && Sound(c.g, s.settled)
    && NoneValid(s.wbc)
    && Flat(c.g, s.settled, c.zero) == Replay(c.disk, s.log)
  }

  // The last write is under way: the medium held everything before it when it took the buffer.
  ghost predicate Dirty<P>(c: Setup<P>, s: Device<P>) {
    && s.log != [] && Sound(c.g, s.settled)
    && var w := s.log[|s.log| - 1];
       && HoldsWrite(s.wbc, w.slba, |w.data|) && s.num == |w.data|
       && Flat(c.g, s.settled, c.zero) == Replay(c.disk, s.log[..|s.log| - 1])
  }

  ghost predicate CopiedIn<P>(buf: seq<P>, w: WriteReq<P>, i: nat) {
    i <= |w.data| && i <= |buf| && buf[..i] == w.data[..i]
  }

  ghost predicate ReadInAt<P>(disk: seq<P>, buf: seq<P>, r: ReadReq, i: nat) {
    i < r.n && i < |buf| && r.slba + i < |disk| && buf[i] == disk[r.slba + i]
  }

  ghost predicate ReadIn<P>(disk: seq<P>, buf: seq<P>, r: ReadReq) {
    forall i | 0 <= i < r.n :: ReadInAt(disk, buf, r, i)
  }

  ghost predicate PartlyProgrammed<P>(before: map<Ppa, P>, after: map<Ppa, P>, ppas: seq<Ppa>, done: set<nat>,
          buf: seq<P>) {
    && after.Keys == before.Keys && |ppas| <= |buf|
    && (forall i | 0 <= i < |ppas| ::
          ppas[i] in before && after[ppas[i]] == if i in done then buf[i] else before[ppas[i]])
    && (forall p | p in before && p !in ppas :: after[p] == before[p])
  }

  predicate NvmeFree<P>(s: Device<P>) { s.pc.Waiting? || s.pc.Scan? }

  // What the buffer, the medium and the request in flight hold, by where the request is.
  ghost predicate NvmeHolds<P>(c: Setup<P>, s: Device<P>) {
    match s.pc
    case CopyIn(w, i, _) => Dirty(c, s) && s.media == s.settled && w == s.log[|s.log| - 1] && CopiedIn(s.buf, w, i)
    case CopyOut(r, got) =>
      && Clean(c, s) && ReadHere(c, s, r) && |got| <= r.n && ReadIn(Replay(c.disk, s.log), s.buf, r)
      && got == Slice(Replay(c.disk, s.log), r.slba, |got|)
    case _ => true
  }

  ghost predicate QueueHolds<P>(c: Setup<P>, s: Device<P>) {
    s.toFtl != [] ==>
      match s.toFtl[0]
      case ReadMsg(r) => NvmeFree(s) && Clean(c, s) && ReadHere(c, s, r)
      case FlushMsg =>
        && Dirty(c, s) && s.media == s.settled
        && CopiedIn(s.buf, s.log[|s.log| - 1], |s.log[|s.log| - 1].data|)
  }

  ghost predicate FtlHolds<P>(c: Setup<P>, s: Device<P>) {
    match s.ftl
    case Resting => true
    case Reading(r, done) =>
      NvmeFree(s) && Clean(c, s) && ReadHere(c, s, r)
        && (forall i | i in done :: ReadInAt(Replay(c.disk, s.log), s.buf, r, i))
    case Flushing(ppas, done) =>
      && Dirty(c, s)
      && var w := s.log[|s.log| - 1];
         && CopiedIn(s.buf, w, |w.data|)
         && InTable(Range(w.slba, |w.data|), |s.settled.t.lpa|) && |w.data| <= FreePages(c.g, s.settled.t)
         && MapAll(c.g, s.settled.t, Range(w.slba, |w.data|)) == (s.media.t, ppas)
         && PartlyProgrammed(s.settled.flash, s.media.flash, ppas, done, s.buf)
  }

  ghost predicate DoneHolds<P>(c: Setup<P>, s: Device<P>) {
    s.fromFtl != [] ==>
      match s.fromFtl[0]
      case ReadMsg(r) => NvmeFree(s) && Clean(c, s) && ReadHere(c, s, r) && ReadIn(Replay(c.disk, s.log), s.buf, r)
      case FlushMsg => Dirty(c, s) && Sound(c.g, s.media) && Flat(c.g, s.media, c.zero) == Replay(c.disk, s.log)
  }

  ghost predicate Good<P>(c: Setup<P>, s: Device<P>) {
    && Requests(c, s) && Alone(s) && Delivered(c, s)
    && NvmeHolds(c, s) && QueueHolds(c, s) && FtlHolds(c, s) && DoneHolds(c, s)
    && (!s.inUse ==> NvmeFree(s) && Clean(c, s))
  }

  // ---- One step ------------------------------------------------------------------------------------

  ghost function FtlTakeOf<P>(c: Setup<P>, s: Device<P>): Device<P>
    requires Good(c, s) && Enabled(c, s, FtlTake)
  {
    match s.toFtl[0]
    case ReadMsg(r) => s.(toFtl := s.toFtl[1..], ftl := Reading(r, {}))
    case FlushMsg =>
      FlushTaken(c, s);
      var (t', ppas) := MapAll(c.g, s.media.t, EntryLpns(ToProgram(s.wbc, s.num)));
      s.(toFtl := s.toFtl[1..], media := s.media.(t := t'), ftl := Flushing(ppas, {}))
  }

  // What process_wbc finds when it takes the flush.
  lemma FlushTaken<P>(c: Setup<P>, s: Device<P>)
    requires Good(c, s) && Enabled(c, s, FtlTake) && s.toFtl[0].FlushMsg?
    ensures s.log != []
    ensures var w := s.log[|s.log| - 1];
            && EntryLpns(ToProgram(s.wbc, s.num)) == Range(w.slba, |w.data|)
            && Core(c.g, s.media.t) && InTable(Range(w.slba, |w.data|), |s.media.t.lpa|)
            && |w.data| <= FreePages(c.g, s.media.t)
  {
    hide Flat, FreePages, Core, ToProgram;
    var w := s.log[|s.log| - 1];
    FlushesTheWrite(s.wbc, w.slba, |w.data|, s.num);
    assert EntryLpns(Entries(w.slba, |w.data|)) == Range(w.slba, |w.data|);
    assert WriteFits(|c.disk|, w);
    SameLength(c, s);
  }

  lemma SameLength<P>(c: Setup<P>, s: Device<P>)
    requires Sound(c.g, s.settled) && exists log :: Flat(c.g, s.settled, c.zero) == Replay(c.disk, log)
    ensures |s.settled.t.lpa| == |c.disk|
  {
    hide Core;
    var log :| Flat(c.g, s.settled, c.zero) == Replay(c.disk, log);
    assert |Flat(c.g, s.settled, c.zero)| == |Replay(c.disk, log)|;
  }

  ghost function FtlPageOf<P>(c: Setup<P>, s: Device<P>, i: nat): Device<P>
    requires Good(c, s) && Enabled(c, s, FtlPage(i))
  {
    match s.ftl
    case Reading(r, done) =>
      SameLength(c, s);
      s.(buf := s.buf[i := Content(c.g, s.media, c.zero, r.slba + i)], ftl := Reading(r, done + {i}))
    case Flushing(ppas, done) =>
      s.(media := s.media.(flash := s.media.flash[ppas[i] := s.buf[i]]), ftl := Flushing(ppas, done + {i}))
  }

  function FtlFinishOf<P>(s: Device<P>): Device<P>
    requires !s.ftl.Resting?
  {
    s.(fromFtl := s.fromFtl + [if s.ftl.Reading? then ReadMsg(s.ftl.r) else FlushMsg], ftl := Resting)
  }

  // What the NVMe thread's accesses to the page buffer rely on.
  lemma InBuffer<P>(c: Setup<P>, s: Device<P>)
    requires Good(c, s)
    ensures forall i | 0 <= i < |s.wq| :: |s.wq[i].data| <= |s.wbc|
    ensures s.pc.CopyIn? ==> |s.pc.w.data| <= |s.buf|
    ensures s.pc.CopyOut? ==> s.pc.r.n <= |s.buf|
  {
    hide Alone, Delivered, QueueHolds, FtlHolds, DoneHolds, Clean, Flat, Sound, Replay;
  }

  ghost function Step<P>(c: Setup<P>, s: Device<P>, ev: Event<P>): Device<P>
    requires Good(c, s) && Enabled(c, s, ev)
  {
    hide Good;
    InBuffer(c, s);
    match ev
    case ArriveRead(slba, nlbs) =>
      if Accepted(slba, nlbs, c.nsze)
      then s.(polls := s.polls - 1, rq := s.rq + [ReadReq(slba, nlbs + 1, s.posted)], pc := Scan([Reads]))
      else Refuse(s)
    case ArriveWrite(slba, data) =>
      if Accepted(slba, |data| - 1, c.nsze)
      then s.(polls := s.polls - 1, wq := s.wq + [WriteReq(slba, data)], pc := Scan([Writes]))
      else Refuse(s)
    case ArriveFlush => s
    case TakeDone => TakeDoneOf(s)
    case NvmeStep => NvmeStepOf(s)
    case FtlTake => FtlTakeOf(c, s)
    case FtlPage(i) => FtlPageOf(c, s, i)
    case FtlFinish => FtlFinishOf(s)
  }

  // ---- Each step keeps the invariant ----------------------------------------------------------------

  // Steps that touch only the request queues, the polls and the place of an NVMe thread without a request in hand.
  ghost predicate OnlyQueues<P>(s: Device<P>, t: Device<P>) {
    && t == s.(polls := t.polls, arm := t.arm, rq := t.rq, wq := t.wq, pc := t.pc, refused := t.refused)
    && NvmeFree(s) && NvmeFree(t)
  }

  lemma OnlyQueuesKeeps<P>(c: Setup<P>, s: Device<P>, t: Device<P>)
    requires Good(c, s) && OnlyQueues(s, t) && Requests(c, t)
    ensures Good(c, t)
  {
    hide Requests, Flat, Sound, Replay, MapAll, FreePages, ReturnedRight, NoneValid, HoldsWrite, PartlyProgrammed;
    hide ReadIn, ReadInAt, CopiedIn, Slice, Dirty, Clean, ReadHere;
    assert Clean(c, s) == Clean(c, t) && Dirty(c, s) == Dirty(c, t) by { SameMedia(c, s, t); }
    forall r ensures ReadHere(c, s, r) == ReadHere(c, t, r) { SameLog(c, s, t, r); }
  }

  lemma SameMedia<P>(c: Setup<P>, s: Device<P>, t: Device<P>)
    requires OnlyQueues(s, t)
    ensures Clean(c, s) == Clean(c, t) && Dirty(c, s) == Dirty(c, t)
  {
    hide Flat, Sound, Replay, NoneValid, HoldsWrite;
  }

  lemma SameLog<P>(c: Setup<P>, s: Device<P>, t: Device<P>, r: ReadReq)
    requires OnlyQueues(s, t)
    ensures ReadHere(c, s, r) == ReadHere(c, t, r)
  {
  }

  lemma ArriveReadKeeps<P>(c: Setup<P>, s: Device<P>, slba: nat, nlbs: nat)
    requires Good(c, s) && Enabled(c, s, ArriveRead(slba, nlbs))
    ensures Good(c, Step(c, s, ArriveRead(slba, nlbs)))
  {
    hide Alone, Delivered, NvmeHolds, QueueHolds, FtlHolds, DoneHolds, Clean;
    OnlyQueuesKeeps(c, s, Step(c, s, ArriveRead(slba, nlbs)));
  }

  lemma ArriveWriteKeeps<P>(c: Setup<P>, s: Device<P>, slba: nat, data: seq<P>)
    requires Good(c, s) && Enabled(c, s, ArriveWrite(slba, data))
    ensures Good(c, Step(c, s, ArriveWrite(slba, data)))
  {
    hide Alone, Delivered, NvmeHolds, QueueHolds, FtlHolds, DoneHolds, Clean;
    OnlyQueuesKeeps(c, s, Step(c, s, ArriveWrite(slba, data)));
  }

  lemma TakeDoneKeeps<P>(c: Setup<P>, s: Device<P>)
    requires Good(c, s) && Enabled(c, s, TakeDone)
    ensures Good(c, Step(c, s, TakeDone))
  {
    hide Flat, Sound, Replay, MapAll, FreePages;
  }

  lemma DeliveredStays<P>(c: Setup<P>, log: seq<WriteReq<P>>, posted: nat, w: WriteReq<P>, o: Returned<P>)
    requires ReturnedRight(c, log, posted, o)
    ensures ReturnedRight(c, log + [w], posted, o)
  {
    assert (log + [w])[..o.n] == log[..o.n];
  }

  predicate Handover<P>(s: Device<P>) {
    s.pc.Scan? && s.pc.todo != [] && !s.inUse && (if s.pc.todo[0] == Reads then s.rq != [] else s.wq != [])
  }

  lemma ScanKeeps<P>(c: Setup<P>, s: Device<P>)
    requires Good(c, s) && s.pc.Scan?
    ensures Good(c, Step(c, s, NvmeStep))
  {
    hide Flat, Sound, Replay, MapAll, FreePages, Delivered, NoneValid, HoldsWrite, PartlyProgrammed, Good;
    if Handover(s) {
      if s.pc.todo[0] == Reads { TakeReadKeeps(c, s); } else { TakeWriteKeeps(c, s); }
    } else {
      ScanOnKeeps(c, s);
    }
  }

  lemma ScanOnKeeps<P>(c: Setup<P>, s: Device<P>)
    requires Good(c, s) && s.pc.Scan? && !Handover(s)
    ensures Good(c, Step(c, s, NvmeStep))
  {
    hide Alone, Delivered, NvmeHolds, QueueHolds, FtlHolds, DoneHolds, Clean;
    OnlyQueuesKeeps(c, s, Step(c, s, NvmeStep));
  }

  lemma TakeReadKeeps<P>(c: Setup<P>, s: Device<P>)
    requires Good(c, s) && Handover(s) && s.pc.todo[0] == Reads
    ensures Good(c, Step(c, s, NvmeStep))
  {
    hide Flat, Sound, Replay, MapAll, FreePages, ReturnedRight, NoneValid, HoldsWrite, PartlyProgrammed;
  }

  lemma TakeWriteKeeps<P>(c: Setup<P>, s: Device<P>)
    requires Good(c, s) && Handover(s) && s.pc.todo[0] == Writes
    ensures Good(c, Step(c, s, NvmeStep))
  {
    hide Flat, Sound, Replay, MapAll, FreePages, ReturnedRight, PartlyProgrammed;
    var t := Step(c, s, NvmeStep);
    assert t.log[..|t.log| - 1] == s.log;
    forall i | 0 <= i < |s.out| ensures ReturnedRight(c, t.log, t.posted, s.out[i]) {
      DeliveredStays(c, s.log, s.posted, s.wq[0], s.out[i]);
    }
  }

  lemma CopyInKeeps<P>(c: Setup<P>, s: Device<P>)
    requires Good(c, s) && s.pc.CopyIn?
    ensures Good(c, Step(c, s, NvmeStep))
  {
    hide Flat, Sound, Replay, MapAll, FreePages, ReturnedRight;
  }

  lemma PostingKeeps<P>(c: Setup<P>, s: Device<P>)
    requires Good(c, s) && s.pc.Posting?
    ensures Good(c, Step(c, s, NvmeStep))
  {
    hide Flat, Sound, Replay, MapAll, FreePages;
  }

  lemma CopyOutKeeps<P>(c: Setup<P>, s: Device<P>)
    requires Good(c, s) && s.pc.CopyOut?
    ensures Good(c, Step(c, s, NvmeStep))
  {
    hide Flat, Sound, Replay, MapAll, FreePages;
    var r, k, disk := s.pc.r, |s.pc.got|, Replay(c.disk, s.log);
    assert s.log[..|s.log|] == s.log;
    if k < r.n {
      assert ReadInAt(disk, s.buf, r, k);
      assert Slice(disk, r.slba, k + 1) == Slice(disk, r.slba, k) + [s.buf[k]];
    }
  }

  lemma FtlTakeKeeps<P>(c: Setup<P>, s: Device<P>)
    requires Good(c, s) && Enabled(c, s, FtlTake)
    ensures Good(c, Step(c, s, FtlTake))
  {
    hide Flat, Core, Replay, MapAll, FreePages, ReturnedRight, ToProgram;
    if s.toFtl[0].FlushMsg? {
      FlushTaken(c, s);
    }
  }

  lemma PartlyOneMore<P>(before: map<Ppa, P>, after: map<Ppa, P>, ppas: seq<Ppa>, done: set<nat>, buf: seq<P>, i: nat)
    requires PartlyProgrammed(before, after, ppas, done, buf) && i < |ppas|
    requires forall j, k | 0 <= j < k < |ppas| :: ppas[j] != ppas[k]
    ensures PartlyProgrammed(before, after[ppas[i] := buf[i]], ppas, done + {i}, buf)
  {
  }

  // The pages the flush under way has taken, and the tables it leaves.
  lemma FlushUnderWay<P>(c: Setup<P>, s: Device<P>)
    requires Good(c, s) && s.ftl.Flushing?
    ensures Core(c.g, s.media.t) && |s.media.t.lpa| == |s.settled.t.lpa| && |s.ftl.ppas| == |s.log[|s.log| - 1].data|
    ensures forall j, k | 0 <= j < k < |s.ftl.ppas| :: s.ftl.ppas[j] != s.ftl.ppas[k]
  {
    hide Flat, Replay, FreePages;
    var w := s.log[|s.log| - 1];
    MapAllTakesFreshPages(c.g, s.settled.t, Range(w.slba, |w.data|));
  }

  lemma ReadPageKeeps<P>(c: Setup<P>, s: Device<P>, i: nat)
    requires Good(c, s) && Enabled(c, s, FtlPage(i)) && s.ftl.Reading?
    ensures Good(c, FtlPageOf(c, s, i))
  {
    hide Core, Replay, MapAll, FreePages, ReturnedRight, Content, Dirty, ReadIn, CopiedIn, NoneValid;
    SameLength(c, s);
    assert Flat(c.g, s.settled, c.zero)[s.ftl.r.slba + i] == Content(c.g, s.settled, c.zero, s.ftl.r.slba + i);
  }

  lemma ProgramPageKeeps<P>(c: Setup<P>, s: Device<P>, i: nat)
    requires Good(c, s) && Enabled(c, s, FtlPage(i)) && s.ftl.Flushing?
    ensures Good(c, FtlPageOf(c, s, i))
  {
    hide Sound, Flat, Replay, MapAll, FreePages, ReturnedRight, Content, PartlyProgrammed, CopiedIn, HoldsWrite;
    hide ReadIn, NoneValid;
    FlushUnderWay(c, s);
    PartlyOneMore(s.settled.flash, s.media.flash, s.ftl.ppas, s.ftl.done, s.buf, i);
  }

  lemma FtlPageKeeps<P>(c: Setup<P>, s: Device<P>, i: nat)
    requires Good(c, s) && Enabled(c, s, FtlPage(i))
    ensures Good(c, Step(c, s, FtlPage(i)))
  {
    hide Good, FtlPageOf;
    if s.ftl.Reading? { ReadPageKeeps(c, s, i); } else { ProgramPageKeeps(c, s, i); }
  }

  function WriteBatch<P>(w: WriteReq<P>): seq<PageWrite<P>> {
    seq(|w.data|, i requires 0 <= i < |w.data| => PageWrite(w.slba + i, w.data[i]))
  }

  /** Writing a request's pages one by one overwrites its range. */
  lemma {:induction false} WriteBatchOverwrites<P>(disk: seq<P>, w: WriteReq<P>)
    requires w.slba + |w.data| <= |disk|
    ensures LpnsIn(WriteBatch(w), |disk|)
    ensures FlatWrite(disk, WriteBatch(w)) == Overwrite(disk, w)
    decreases |w.data|
  {
    if |w.data| == 0 {
      assert WriteBatch(w) == [];
    } else {
      var n := |w.data| - 1;
      var shorter := WriteReq(w.slba, w.data[..n]);
      WriteBatchOverwrites(disk, shorter);
      assert WriteBatch(w)[..n] == WriteBatch(shorter);
      assert Overwrite(disk, shorter)[w.slba + n := w.data[n]] == Overwrite(disk, w);
    }
  }

  // When every page of the flush is programmed, the flash is what programming in order gives.
  lemma AllProgrammed<P>(before: map<Ppa, P>, after: map<Ppa, P>, ppas: seq<Ppa>, done: set<nat>, buf: seq<P>)
    requires PartlyProgrammed(before, after, ppas, done, buf) && forall i | 0 <= i < |ppas| :: i in done
    requires forall j, k | 0 <= j < k < |ppas| :: ppas[j] != ppas[k]
    ensures after == Program(before, Ops(ppas, Range(0, |ppas|)), buf)
  {
    ProgramBuffers(before, ppas, buf);
    var f := Program(before, Ops(ppas, Range(0, |ppas|)), buf);
    forall p | p in before ensures after[p] == f[p] {
      if p in ppas { var i :| 0 <= i < |ppas| && ppas[i] == p; }
    }
  }

  lemma BatchFacts<P>(w: WriteReq<P>, buf: seq<P>, lpns: nat)
    requires CopiedIn(buf, w, |w.data|) && WriteFits(lpns, w)
    ensures LpnsIn(WriteBatch(w), lpns) && Lpns(WriteBatch(w)) == Range(w.slba, |w.data|)
    ensures SlotsHold(WriteBatch(w), Range(0, |w.data|), buf)
  {
    forall i | 0 <= i < |w.data| ensures buf[i] == w.data[i] {
      assert buf[..|w.data|][i] == w.data[..|w.data|][i];
    }
  }

  /** A finished flush has made exactly the last write of the log take effect. */
  lemma FlushDone<P>(c: Setup<P>, s: Device<P>)
    requires Good(c, s) && s.ftl.Flushing? && forall i | 0 <= i < |s.ftl.ppas| :: i in s.ftl.done
    ensures Sound(c.g, s.media) && Flat(c.g, s.media, c.zero) == Replay(c.disk, s.log)
  {
    hide Core, Flat, MapAll, FreePages, Program, WriteAll, Delivered;
    var w := s.log[|s.log| - 1];
    var batch := WriteBatch(w);
    SameLength(c, s);
    FlushUnderWay(c, s);
    AllProgrammed(s.settled.flash, s.media.flash, s.ftl.ppas, s.ftl.done, s.buf);
    BatchFacts(w, s.buf, |c.disk|);
    MapThenProgram(c.g, s.settled, batch, Range(0, |w.data|), s.buf);
    WriteAllRefines(c.g, s.settled, c.zero, batch);
    WriteBatchOverwrites(Replay(c.disk, s.log[..|s.log| - 1]), w);
  }

  lemma FtlFinishKeeps<P>(c: Setup<P>, s: Device<P>)
    requires Good(c, s) && Enabled(c, s, FtlFinish)
    ensures Good(c, Step(c, s, FtlFinish))
  {
    hide Flat, Sound, Replay, MapAll, FreePages, ReturnedRight, PartlyProgrammed;
    if s.ftl.Flushing? { FlushDone(c, s); }
  }

  lemma StepKeeps<P>(c: Setup<P>, s: Device<P>, ev: Event<P>)
    requires Good(c, s) && Enabled(c, s, ev)
    ensures Good(c, Step(c, s, ev))
  {
    hide Good, Step;
    match ev
    case ArriveRead(slba, nlbs) => ArriveReadKeeps(c, s, slba, nlbs);
    case ArriveWrite(slba, data) => ArriveWriteKeeps(c, s, slba, data);
    case ArriveFlush => ArriveFlushKeeps(c, s);
    case TakeDone => TakeDoneKeeps(c, s);
    case NvmeStep =>
      match s.pc {
        case Scan(_) => ScanKeeps(c, s);
        case CopyIn(_, _, _) => CopyInKeeps(c, s);
        case Posting(_) => PostingKeeps(c, s);
        case CopyOut(_, _) => CopyOutKeeps(c, s);
      }
    case FtlTake => FtlTakeKeeps(c, s);
    case FtlPage(i) => FtlPageKeeps(c, s, i);
    case FtlFinish => FtlFinishKeeps(c, s);
  }

  lemma ArriveFlushKeeps<P>(c: Setup<P>, s: Device<P>)
    requires Good(c, s) && Enabled(c, s, ArriveFlush)
    ensures Step(c, s, ArriveFlush) == s
  {
    hide Good;
  }

  // ---- Runs ---------------------------------------------------------------------------------------

  ghost predicate AllEnabled<P>(c: Setup<P>, s: Device<P>, evs: seq<Event<P>>)
    requires Good(c, s)
    decreases |evs|
  {
    evs != [] ==>
      Enabled(c, s, evs[0]) && (StepKeeps(c, s, evs[0]); AllEnabled(c, Step(c, s, evs[0]), evs[1..]))
  }

  ghost function RunAll<P>(c: Setup<P>, s: Device<P>, evs: seq<Event<P>>): (s': Device<P>)
    requires Good(c, s) && AllEnabled(c, s, evs)
    ensures Good(c, s')
    decreases |evs|
  {
    if evs == [] then s
    else
      StepKeeps(c, s, evs[0]);
      RunAll(c, Step(c, s, evs[0]), evs[1..])
  }

  /** A device that has just started on a medium, with `polls` doorbell polls scheduled. */
  function Fresh<P>(media: Media<P>, polls: nat, wbc: seq<WbcPage>, buf: seq<P>): Device<P> {
    Device(polls, false, [], [], false, wbc, 0, buf, Waiting, [], [], Resting, media, [], 0, media, [], 0)
  }

  ghost predicate Starts<P>(c: Setup<P>, s: Device<P>) {
    && s == Fresh(s.media, s.polls, s.wbc, s.buf)
    && Sound(c.g, s.media) && c.disk == Flat(c.g, s.media, c.zero) && c.nsze < |c.disk|
    && |s.wbc| == |s.buf| == WBC_PAGES && NoneValid(s.wbc)
  }

  lemma SmallDisk<P>(c: Setup<P>, m: Media<P>)
    requires Sound(c.g, m) && c.disk == Flat(c.g, m, c.zero)
    ensures |c.disk| <= U32
  {
    hide Placed, Logged, Inverse;
  }

  lemma StartGood<P>(c: Setup<P>, s: Device<P>)
    requires Starts(c, s)
    ensures Good(c, s)
  {
    hide Flat, Sound;
    SmallDisk(c, s.media);
  }

  // Page l of what a read returned is the data of write j, the last of the first n writes that covers it.
  ghost predicate PageFrom<P>(c: Setup<P>, log: seq<WriteReq<P>>, o: Returned<P>, l: nat, j: nat) {
    && o.n <= |log| && j < o.n && o.r.slba <= l < o.r.slba + |o.data|
    && LastWrite(c.disk, log[..o.n], l, j)
    && o.data[l - o.r.slba] == log[j].data[l - log[j].slba]
  }

  lemma ReturnedPage<P>(c: Setup<P>, log: seq<WriteReq<P>>, posted: nat, o: Returned<P>, k: nat, l: nat)
    requires ReturnedRight(c, log, posted, o) && o.r.slba <= l < o.r.slba + o.r.n
    requires k < o.r.since && Covers(log[k], l)
    ensures |o.data| == o.r.n && exists j :: k <= j && PageFrom(c, log, o, l, j)
  {
    hide Replay;
    assert log[..o.n][k] == log[k];
    ReplayIsLastWrite(c.disk, log[..o.n], l, k);
    var j :| k <= j && LastWrite(c.disk, log[..o.n], l, j);
    assert log[..o.n][j] == log[j];
    assert PageFrom(c, log, o, l, j);
  }

  lemma GoodDelivered<P>(c: Setup<P>, s: Device<P>, i: nat)
    requires Good(c, s) && i < |s.out|
    ensures ReturnedRight(c, s.log, s.posted, s.out[i])
  {
  }

  // The history only grows.
  ghost predicate Grown<P>(s: Device<P>, t: Device<P>) {
    s.log <= t.log && s.posted <= t.posted && s.out <= t.out
  }

  lemma NvmeGrows<P>(c: Setup<P>, s: Device<P>)
    requires Good(c, s) && Enabled(c, s, NvmeStep)
    ensures Grown(s, NvmeStepOf(s))
  {
    hide Alone, Delivered, NvmeHolds, QueueHolds, FtlHolds, DoneHolds, Clean, FillWbc;
  }

  lemma LogGrowsStep<P>(c: Setup<P>, s: Device<P>, ev: Event<P>)
    requires Good(c, s) && Enabled(c, s, ev)
    ensures Grown(s, Step(c, s, ev))
  {
    hide Good, NvmeStepOf, MapAll, FreePages, ToProgram, EntryLpns, ClearWbc, Range, Content, Accepted;
    if ev == NvmeStep { NvmeGrows(c, s); }
  }

  lemma {:induction false} LogGrows<P>(c: Setup<P>, s: Device<P>, evs: seq<Event<P>>)
    requires Good(c, s) && AllEnabled(c, s, evs)
    ensures Grown(s, RunAll(c, s, evs))
    decreases |evs|
  {
    hide Good, Step, Enabled;
    if evs != [] {
      LogGrowsStep(c, s, evs[0]);
      StepKeeps(c, s, evs[0]);
      LogGrows(c, Step(c, s, evs[0]), evs[1..]);
    }
  }

  // ---- The commands the host submits ---------------------------------------------------------------

  /** A command that the front end takes: at most 16 pages, ending at most one page past the namespace. Every command
      that lies in the namespace is one. */
  predicate Takes<P>(c: Setup<P>, slba: nat, n: nat) { n <= WBC_PAGES && slba + n <= c.nsze + 1 }

  // The writes submitted by a run's events and not refused, in order; the reads, likewise; and the refusals.
  function WritesOf<P>(c: Setup<P>, evs: seq<Event<P>>): seq<WriteReq<P>> {
    if evs == [] then [] else WriteIn(c, evs[0]) + WritesOf(c, evs[1..])
  }

  function WriteIn<P>(c: Setup<P>, ev: Event<P>): seq<WriteReq<P>> {
    if ev.ArriveWrite? && Takes(c, ev.slba, |ev.data|) then [WriteReq(ev.slba, ev.data)] else []
  }

  datatype Asked = Asked(slba: nat, n: nat)

  function ReadsOf<P>(c: Setup<P>, evs: seq<Event<P>>): seq<Asked> {
    if evs == [] then [] else AskedIn(c, evs[0]) + ReadsOf(c, evs[1..])
  }

  function AskedIn<P>(c: Setup<P>, ev: Event<P>): seq<Asked> {
    if ev.ArriveRead? && Takes(c, ev.slba, ev.nlbs + 1) then [Asked(ev.slba, ev.nlbs + 1)] else []
  }

  function RefusalsOf<P>(c: Setup<P>, evs: seq<Event<P>>): nat {
    if evs == [] then 0 else RefusalIn(c, evs[0]) + RefusalsOf(c, evs[1..])
  }

  function RefusalIn<P>(c: Setup<P>, ev: Event<P>): nat {
    match ev
    case ArriveRead(slba, nlbs) => if Takes(c, slba, nlbs + 1) then 0 else 1
    case ArriveWrite(slba, data) => if Takes(c, slba, |data|) then 0 else 1
    case _ => 0
  }

  // The reads the device has, in the order in which they will be returned or have been.
  function ReadsHad<P>(s: Device<P>): seq<Asked> { ReadsOut(s.out) + ReadsUnderWay(s) + ReadsQueued(s.rq) }

  function ReadsOut<P>(out: seq<Returned<P>>): seq<Asked> {
    seq(|out|, i requires 0 <= i < |out| => Asked(out[i].r.slba, out[i].r.n))
  }

  function ReadsQueued(rq: seq<ReadReq>): seq<Asked> {
    seq(|rq|, i requires 0 <= i < |rq| => Asked(rq[i].slba, rq[i].n))
  }

  function ReadsUnderWay<P>(s: Device<P>): seq<Asked> {
    MsgRead(s.toFtl) + (if s.ftl.Reading? then [Asked(s.ftl.r.slba, s.ftl.r.n)] else []) + MsgRead(s.fromFtl)
    + (if s.pc.CopyOut? then [Asked(s.pc.r.slba, s.pc.r.n)] else [])
  }

  function MsgRead(msgs: seq<Msg>): seq<Asked> {
    if msgs != [] && msgs[0].ReadMsg? then [Asked(msgs[0].r.slba, msgs[0].r.n)] else []
  }

  // What the front end does with a command, in plain arithmetic.
  lemma AcceptedIsTakes<P>(c: Setup<P>, slba: nat, nlbs: nat)
    requires c.nsze < U32 && !WrapsIn(slba, nlbs, c.nsze)
    ensures Accepted(slba, nlbs, c.nsze) <==> Takes(c, slba, nlbs + 1)
    ensures InNamespace(slba, nlbs, c.nsze) && nlbs < WBC_PAGES ==> Takes(c, slba, nlbs + 1)
  {
    if slba + nlbs < U64 { SmallSum(slba + nlbs); }
  }

  lemma NvmeTakesNothing<P>(c: Setup<P>, s: Device<P>)
    requires Good(c, s) && Enabled(c, s, NvmeStep)
    ensures var t := NvmeStepOf(s);
            t.log + t.wq == s.log + s.wq && t.refused == s.refused
  {
    hide Alone, Delivered, NvmeHolds, QueueHolds, FtlHolds, DoneHolds, Clean, FillWbc;
    InBuffer(c, s);
    if Handover(s) && s.pc.todo[0] == Writes { assert s.wq == [s.wq[0]] + s.wq[1..]; }
  }

  lemma StepTakesCommand<P>(c: Setup<P>, s: Device<P>, ev: Event<P>)
    requires Good(c, s) && Enabled(c, s, ev)
    ensures var t := Step(c, s, ev);
            t.log + t.wq == s.log + s.wq + WriteIn(c, ev) && t.refused == s.refused + RefusalIn(c, ev)
  {
    hide Good, Accepted, WrapsIn, NvmeStepOf, MapAll, FreePages, ToProgram, EntryLpns, ClearWbc, Content, Takes;
    SmallNamespace(c, s);
    match ev
    case ArriveRead(slba, nlbs) => AcceptedIsTakes(c, slba, nlbs);
    case ArriveWrite(slba, data) => AcceptedIsTakes(c, slba, |data| - 1);
    case NvmeStep => NvmeTakesNothing(c, s);
    case _ =>
  }

  lemma SmallNamespace<P>(c: Setup<P>, s: Device<P>)
    requires Good(c, s)
    ensures c.nsze < U32
  {
  }

  /** Over any run, the writes that have got the buffer followed by those that wait for it are exactly the writes the
      host submitted, in order and unchanged; and exactly the commands that are not taken are refused. */
  lemma {:induction false} RunTakesCommands<P>(c: Setup<P>, s: Device<P>, evs: seq<Event<P>>)
    requires Good(c, s) && AllEnabled(c, s, evs)
    ensures RunAll(c, s, evs).log + RunAll(c, s, evs).wq == s.log + s.wq + WritesOf(c, evs)
    ensures RunAll(c, s, evs).refused == s.refused + RefusalsOf(c, evs)
    decreases |evs|
  {
    hide Good, Step, Enabled, WriteIn, RefusalIn;
    if evs != [] {
      StepTakesCommand(c, s, evs[0]);
      StepKeeps(c, s, evs[0]);
      RunTakesCommands(c, Step(c, s, evs[0]), evs[1..]);
    }
  }

  lemma RunFromStart<P>(c: Setup<P>, s: Device<P>, evs: seq<Event<P>>)
    requires Starts(c, s) && Good(c, s) && AllEnabled(c, s, evs)
    ensures var e := RunAll(c, s, evs);
            e.log + e.wq == WritesOf(c, evs) && e.log <= WritesOf(c, evs) && e.refused == RefusalsOf(c, evs)
  {
    hide Good, Sound, Flat, RunAll, AllEnabled;
    RunTakesCommands(c, s, evs);
    assert [] + [] + WritesOf(c, evs) == WritesOf(c, evs);
  }

  lemma {:induction false} WritesPrefix<P>(c: Setup<P>, evs: seq<Event<P>>, m: nat)
    requires m <= |evs|
    ensures WritesOf(c, evs[..m]) <= WritesOf(c, evs)
    decreases |evs|
  {
    hide WriteIn;
    if 0 < m {
      assert evs[..m][1..] == evs[1..][..m - 1];
      WritesPrefix(c, evs[1..], m - 1);
    }
  }

  // With the buffer free no read is under way; otherwise at most one place holds one.
  lemma NoneUnderWay<P>(s: Device<P>)
    requires Alone(s) && !s.inUse
    ensures ReadsUnderWay(s) == []
  {
  }

  lemma HandsReadOver<P>(c: Setup<P>, s: Device<P>)
    requires Good(c, s) && Handover(s) && s.pc.todo[0] == Reads
    ensures ReadsHad(Step(c, s, NvmeStep)) == ReadsHad(s)
  {
    hide Requests, Delivered, NvmeHolds, QueueHolds, FtlHolds, DoneHolds, Clean, FillWbc, ReadsOut, ReadsQueued;
    NoneUnderWay(s);
    NextQueued(s.rq);
    var t := Step(c, s, NvmeStep);
    assert s.toFtl + [ReadMsg(s.rq[0])] == [ReadMsg(s.rq[0])];
    assert ReadsUnderWay(t) == [Asked(s.rq[0].slba, s.rq[0].n)];
  }

  lemma ReturnsRead<P>(c: Setup<P>, s: Device<P>)
    requires Good(c, s) && s.pc.CopyOut? && |s.pc.got| == s.pc.r.n
    ensures ReadsHad(Step(c, s, NvmeStep)) == ReadsHad(s)
  {
    hide Delivered, NvmeHolds, QueueHolds, FtlHolds, DoneHolds, Clean, FillWbc, ReadsOut, ReadsQueued;
    InBuffer(c, s);
    OneMoreOut(s.out, Returned(s.pc.r, s.pc.got, |s.log|));
    assert ReadsUnderWay(s) == [Asked(s.pc.r.slba, s.pc.r.n)];
    assert ReadsUnderWay(Step(c, s, NvmeStep)) == [];
  }

  lemma OtherwiseKeepsReads<P>(c: Setup<P>, s: Device<P>)
    requires Good(c, s) && Enabled(c, s, NvmeStep) && !(Handover(s) && s.pc.todo[0] == Reads)
    requires !(s.pc.CopyOut? && |s.pc.got| >= s.pc.r.n)
    ensures ReadsHad(NvmeStepOf(s)) == ReadsHad(s)
  {
    hide Delivered, NvmeHolds, QueueHolds, FtlHolds, DoneHolds, Clean, FillWbc, ReadsHad;
    InBuffer(c, s);
    SameReads(s, NvmeStepOf(s));
  }

  lemma SameReads<P>(s: Device<P>, t: Device<P>)
    requires t.out == s.out && t.rq == s.rq && t.ftl == s.ftl && t.fromFtl == s.fromFtl
    requires MsgRead(t.toFtl) == MsgRead(s.toFtl)
    requires t.pc.CopyOut? == s.pc.CopyOut? && (s.pc.CopyOut? ==> t.pc.r == s.pc.r)
    ensures ReadsHad(t) == ReadsHad(s)
  {
  }

  lemma NvmeKeepsReads<P>(c: Setup<P>, s: Device<P>)
    requires Good(c, s) && Enabled(c, s, NvmeStep)
    ensures ReadsHad(Step(c, s, NvmeStep)) == ReadsHad(s)
  {
    hide Alone, Requests, Delivered, QueueHolds, FtlHolds, DoneHolds, Clean, Dirty, NvmeStepOf, ReadsHad;
    if Handover(s) && s.pc.todo[0] == Reads {
      HandsReadOver(c, s);
    } else if s.pc.CopyOut? && |s.pc.got| == s.pc.r.n {
      ReturnsRead(c, s);
    } else {
      OtherwiseKeepsReads(c, s);
    }
  }

  lemma NextQueued(rq: seq<ReadReq>)
    requires rq != []
    ensures ReadsQueued(rq) == [Asked(rq[0].slba, rq[0].n)] + ReadsQueued(rq[1..])
  {
  }

  lemma OneMoreQueued(rq: seq<ReadReq>, r: ReadReq)
    ensures ReadsQueued(rq + [r]) == ReadsQueued(rq) + [Asked(r.slba, r.n)]
  {
  }

  lemma OneMoreOut<P>(out: seq<Returned<P>>, o: Returned<P>)
    ensures ReadsOut(out + [o]) == ReadsOut(out) + [Asked(o.r.slba, o.r.n)]
  {
  }

  lemma TakeDoneKeepsReads<P>(c: Setup<P>, s: Device<P>)
    requires Good(c, s) && Enabled(c, s, TakeDone)
    ensures ReadsHad(TakeDoneOf(s)) == ReadsHad(s)
  {
    hide Requests, Delivered, NvmeHolds, QueueHolds, FtlHolds, DoneHolds, Clean, ReadsOut, ReadsQueued, ClearWbc;
  }

  lemma FtlTakeKeepsReads<P>(c: Setup<P>, s: Device<P>)
    requires Good(c, s) && Enabled(c, s, FtlTake)
    ensures ReadsHad(FtlTakeOf(c, s)) == ReadsHad(s)
  {
    hide Requests, Delivered, NvmeHolds, QueueHolds, FtlHolds, DoneHolds, Clean, ReadsOut, ReadsQueued;
    hide MapAll, FreePages, ToProgram, EntryLpns;
  }

  lemma FtlFinishKeepsReads<P>(c: Setup<P>, s: Device<P>)
    requires Good(c, s) && Enabled(c, s, FtlFinish)
    ensures ReadsHad(FtlFinishOf(s)) == ReadsHad(s)
  {
    hide Requests, Delivered, NvmeHolds, QueueHolds, FtlHolds, DoneHolds, Clean, ReadsOut, ReadsQueued;
  }

  lemma PageKeepsReads<P>(c: Setup<P>, s: Device<P>, i: nat)
    requires Good(c, s) && Enabled(c, s, FtlPage(i))
    ensures ReadsHad(FtlPageOf(c, s, i)) == ReadsHad(s)
  {
    hide Good, ReadsOut, ReadsQueued, Content;
  }

  lemma ArrivalTakesRead<P>(c: Setup<P>, s: Device<P>, ev: Event<P>)
    requires Good(c, s) && Enabled(c, s, ev) && (ev.ArriveRead? || ev.ArriveWrite? || ev.ArriveFlush?)
    ensures ReadsHad(Step(c, s, ev)) == ReadsHad(s) + AskedIn(c, ev)
  {
    hide Good, Accepted, WrapsIn, NvmeStepOf, FtlTakeOf, FtlPageOf, FtlFinishOf, TakeDoneOf, Takes;
    hide ReadsOut, ReadsQueued, MsgRead;
    if ev.ArriveRead? {
      SmallNamespace(c, s);
      AcceptedIsTakes(c, ev.slba, ev.nlbs);
      OneMoreQueued(s.rq, ReadReq(ev.slba, ev.nlbs + 1, s.posted));
    }
  }

  lemma StepTakesRead<P>(c: Setup<P>, s: Device<P>, ev: Event<P>)
    requires Good(c, s) && Enabled(c, s, ev)
    ensures ReadsHad(Step(c, s, ev)) == ReadsHad(s) + AskedIn(c, ev)
  {
    hide Good, Accepted, WrapsIn, NvmeStepOf, FtlTakeOf, FtlPageOf, FtlFinishOf, TakeDoneOf, Takes, ReadsHad, Enabled;
    match ev
    case NvmeStep => NvmeKeepsReads(c, s);
    case TakeDone => TakeDoneKeepsReads(c, s);
    case FtlTake => FtlTakeKeepsReads(c, s);
    case FtlPage(i) => PageKeepsReads(c, s, i);
    case FtlFinish => FtlFinishKeepsReads(c, s);
    case _ => ArrivalTakesRead(c, s, ev);
  }

  /** Over any run, the reads returned, the one under way and those queued are exactly the reads the host submitted, in
      order: none is lost, invented or overtaken. */
  lemma {:induction false} RunTakesReads<P>(c: Setup<P>, s: Device<P>, evs: seq<Event<P>>)
    requires Good(c, s) && AllEnabled(c, s, evs)
    ensures ReadsHad(RunAll(c, s, evs)) == ReadsHad(s) + ReadsOf(c, evs)
    decreases |evs|
  {
    hide Good, Step, Enabled, AskedIn, ReadsHad;
    if evs != [] {
      StepTakesRead(c, s, evs[0]);
      StepKeeps(c, s, evs[0]);
      RunTakesReads(c, Step(c, s, evs[0]), evs[1..]);
    }
  }

  // ---- Every read that is returned was submitted ---------------------------------------------------

  // Somewhere in the device this read is on its way, or it has been returned.
  ghost predicate HasRead<P>(s: Device<P>, r: ReadReq) {
    || r in s.rq || ReadMsg(r) in s.toFtl || ReadMsg(r) in s.fromFtl
    || (s.ftl.Reading? && s.ftl.r == r) || (s.pc.CopyOut? && s.pc.r == r)
    || HasReturned(s.out, r)
  }

  ghost predicate HasReturned<P>(out: seq<Returned<P>>, r: ReadReq) { exists i :: 0 <= i < |out| && out[i].r == r }

  predicate Submits<P>(s: Device<P>, ev: Event<P>, r: ReadReq) {
    ev.ArriveRead? && r == ReadReq(ev.slba, ev.nlbs + 1, s.posted)
  }

  // Reads enter the device only as they arrive: the NVMe thread and the translation layer pass them on.
  lemma NvmePassesOn<P>(c: Setup<P>, s: Device<P>, r: ReadReq)
    requires Good(c, s) && Enabled(c, s, NvmeStep) && HasRead(NvmeStepOf(s), r)
    ensures HasRead(s, r)
  {
    hide Alone, Delivered, NvmeHolds, QueueHolds, FtlHolds, DoneHolds, Clean, FillWbc, HasReturned;
    var o := if s.pc.CopyOut? then Returned(s.pc.r, s.pc.got, |s.log|) else Returned(r, [], 0);
    if HasReturned(s.out + [o], r) { ReturnedOneMore(s.out, o, r); }
  }

  lemma FtlPassesOn<P>(c: Setup<P>, s: Device<P>, ev: Event<P>, r: ReadReq)
    requires Good(c, s) && Enabled(c, s, ev) && HasRead(Step(c, s, ev), r)
    requires ev.TakeDone? || ev.FtlTake? || ev.FtlPage? || ev.FtlFinish?
    ensures HasRead(s, r)
  {
    hide Good, FreePages, MapAll, ToProgram, Content, EntryLpns, HasReturned, NvmeStepOf, ClearWbc;
  }

  lemma ReadsOnlyArrive<P>(c: Setup<P>, s: Device<P>, ev: Event<P>, r: ReadReq)
    requires Good(c, s) && Enabled(c, s, ev) && HasRead(Step(c, s, ev), r)
    ensures HasRead(s, r) || Submits(s, ev, r)
  {
    hide Good, HasReturned, Accepted, NvmeStepOf, FtlTakeOf, FtlPageOf, FtlFinishOf, TakeDoneOf;
    match ev
    case NvmeStep => NvmePassesOn(c, s, r);
    case TakeDone => FtlPassesOn(c, s, ev, r);
    case FtlTake => FtlPassesOn(c, s, ev, r);
    case FtlPage(_) => FtlPassesOn(c, s, ev, r);
    case FtlFinish => FtlPassesOn(c, s, ev, r);
    case _ =>
  }

  lemma ReturnedOneMore<P>(out: seq<Returned<P>>, o: Returned<P>, r: ReadReq)
    requires HasReturned(out + [o], r)
    ensures HasReturned(out, r) || o.r == r
  {
    var i :| 0 <= i < |out + [o]| && (out + [o])[i].r == r;
    if i < |out| { assert out[i].r == r; }
  }

  /** Event m of the run submits read r, which carries the number of completions posted until before. */
  ghost predicate SubmittedAt<P>(c: Setup<P>, s: Device<P>, evs: seq<Event<P>>, m: nat, r: ReadReq)
    requires Good(c, s)
  {
    m < |evs| && AllEnabled(c, s, evs[..m]) && Submits(RunAll(c, s, evs[..m]), evs[m], r)
  }

  lemma {:induction false} ReadsWereSubmitted<P>(c: Setup<P>, s: Device<P>, evs: seq<Event<P>>, r: ReadReq)
    requires Good(c, s) && AllEnabled(c, s, evs) && !HasRead(s, r) && HasRead(RunAll(c, s, evs), r)
    ensures exists m: nat :: SubmittedAt(c, s, evs, m, r)
    decreases |evs|
  {
    hide Good, Step, Enabled, HasRead, Submits;
    var ev, next := evs[0], Step(c, s, evs[0]);
    StepKeeps(c, s, ev);
    if HasRead(next, r) {
      ReadsOnlyArrive(c, s, ev, r);
      assert SubmittedAt(c, s, evs, 0, r);
    } else {
      ReadsWereSubmitted(c, next, evs[1..], r);
      var m: nat :| SubmittedAt(c, next, evs[1..], m, r);
      assert evs[..m + 1] == [ev] + evs[1..][..m];
      assert SubmittedAt(c, s, evs, m + 1, r);
    }
  }

  // Every one of the first `posted` writes shows in what this read returned, unless a later one covers it.
  ghost predicate ReturnsAcknowledged<P>(c: Setup<P>, writes: seq<WriteReq<P>>, posted: nat, o: Returned<P>) {
    forall k: nat, l: nat | k < posted && k < |writes| && Covers(writes[k], l) && Asks(o.r, l)
      :: ShowsFrom(c, writes, o, l, k)
  }

  predicate Asks(r: ReadReq, l: nat) { r.slba <= l < r.slba + r.n }

  ghost predicate ShowsFrom<P>(c: Setup<P>, writes: seq<WriteReq<P>>, o: Returned<P>, l: nat, k: nat) {
    exists j :: k <= j && PageFrom(c, writes, o, l, j)
  }

  /** Over whole runs, in terms of the host's commands alone: a read that is returned was submitted by some event m; it
      returns the disk after the first n writes the host submitted, which include every write acknowledged before
      event m; so page for page it shows each of those, or a later one. */
  lemma ReadAfterWriteOverRuns<P>(c: Setup<P>, s: Device<P>, evs: seq<Event<P>>, i: nat)
    requires Starts(c, s) && Good(c, s) && AllEnabled(c, s, evs) && i < |RunAll(c, s, evs).out|
    ensures var o, writes := RunAll(c, s, evs).out[i], WritesOf(c, evs);
            && o.n <= |writes| && o.r.slba + o.r.n <= |c.disk|
            && o.data == Slice(Replay(c.disk, writes[..o.n]), o.r.slba, o.r.n)
            && exists m: nat ::
                 && SubmittedAt(c, s, evs, m, o.r)
                 && RunAll(c, s, evs[..m]).posted <= |WritesOf(c, evs[..m])| && WritesOf(c, evs[..m]) <= writes
                 && RunAll(c, s, evs[..m]).posted == o.r.since <= o.n
                 && ReturnsAcknowledged(c, writes, RunAll(c, s, evs[..m]).posted, o)
  {
    hide Good, AllEnabled, Covers, PageFrom, SubmittedAt, ReturnsAcknowledged, HasRead, WritesOf, Replay, Slice;
    var e := RunAll(c, s, evs);
    var o, writes := e.out[i], WritesOf(c, evs);
    RunFromStart(c, s, evs);
    GoodDelivered(c, e, i);
    PrefixOfPrefix(e.log, writes, o.n);
    StartsWithout(c, s, o.r);
    ReturnedIsHad(e, i);
    ReadsWereSubmitted(c, s, evs, o.r);
    var m: nat :| SubmittedAt(c, s, evs, m, o.r);
    SubmittedInTime(c, s, evs, m, o.r);
    WritesPrefix(c, evs, m);
    RunFromStart(c, s, evs[..m]);
    ReturnsPosted(c, writes, e.posted, o);
  }

  lemma PrefixOfPrefix<P>(log: seq<WriteReq<P>>, writes: seq<WriteReq<P>>, n: nat)
    requires log <= writes && n <= |log|
    ensures writes[..n] == log[..n]
  {
  }

  /** Read after write, over every interleaving: whatever a read returns, if write k of those the host submitted had its
      completion posted when the read was submitted, and covers page l, then page l of the result is the data of write
      k or of a later one, namely of the last that got the buffer before the read did. */
  lemma ReadAfterWrite<P>(c: Setup<P>, s: Device<P>, evs: seq<Event<P>>, i: nat, k: nat, l: nat)
    requires Starts(c, s) && Good(c, s) && AllEnabled(c, s, evs)
    requires i < |RunAll(c, s, evs).out|
    requires var o := RunAll(c, s, evs).out[i]; k < o.r.since && o.r.slba <= l < o.r.slba + o.r.n
    requires k < |WritesOf(c, evs)| && Covers(WritesOf(c, evs)[k], l)
    ensures |RunAll(c, s, evs).out[i].data| == RunAll(c, s, evs).out[i].r.n
    ensures exists j :: k <= j && PageFrom(c, WritesOf(c, evs), RunAll(c, s, evs).out[i], l, j)
  {
    hide Good, AllEnabled, Starts, Covers, PageFrom, WritesOf, Replay, Slice;
    var e, writes := RunAll(c, s, evs), WritesOf(c, evs);
    RunFromStart(c, s, evs);
    GoodDelivered(c, e, i);
    PrefixOfPrefix(e.log, writes, e.out[i].n);
    ReturnedPage(c, writes, e.posted, e.out[i], k, l);
  }

  lemma SubmittedInTime<P>(c: Setup<P>, s: Device<P>, evs: seq<Event<P>>, m: nat, r: ReadReq)
    requires Good(c, s) && SubmittedAt(c, s, evs, m, r)
    ensures m < |evs| && AllEnabled(c, s, evs[..m]) && r.since == RunAll(c, s, evs[..m]).posted
    ensures RunAll(c, s, evs[..m]).posted <= |RunAll(c, s, evs[..m]).log|
  {
    hide AllEnabled, Alone, Delivered, NvmeHolds, QueueHolds, FtlHolds, DoneHolds, Clean;
  }

  lemma ReturnsPosted<P>(c: Setup<P>, writes: seq<WriteReq<P>>, posted: nat, o: Returned<P>)
    requires o.n <= |writes| && o.r.since <= o.n && o.r.slba + o.r.n <= |c.disk|
    requires o.data == Slice(Replay(c.disk, writes[..o.n]), o.r.slba, o.r.n)
    ensures ReturnsAcknowledged(c, writes, o.r.since, o)
  {
    hide Covers, PageFrom, Replay, Slice;
    forall k: nat, l: nat | k < o.r.since && k < |writes| && Covers(writes[k], l) && Asks(o.r, l)
      ensures ShowsFrom(c, writes, o, l, k)
    {
      ReturnedPage(c, writes, posted, o, k, l);
    }
  }

  lemma StartsWithout<P>(c: Setup<P>, s: Device<P>, r: ReadReq)
    requires Starts(c, s)
    ensures !HasRead(s, r)
  {
    hide Sound, Flat;
  }

  lemma ReturnedIsHad<P>(s: Device<P>, i: nat)
    requires i < |s.out|
    ensures HasRead(s, s.out[i].r)
  {
    assert HasReturned(s.out, s.out[i].r);
  }

  // ---- One doorbell poll at a time -------------------------------------------------------------------

  // The scheduled polls together with the requests that will schedule one when they complete.
  function Tokens<P>(s: Device<P>): nat {
    s.polls + (if s.arm then 1 else 0) + |s.rq| + |s.wq| + (if s.inUse then 1 else 0) + s.refused
  }

  predicate ArmedRight<P>(s: Device<P>) { s.arm ==> s.pc.Scan? || s.pc.CopyIn? || s.pc.Posting? }

  lemma NvmeKeepsTokens<P>(c: Setup<P>, s: Device<P>)
    requires Good(c, s) && Enabled(c, s, NvmeStep) && ArmedRight(s)
    ensures Tokens(NvmeStepOf(s)) == Tokens(s) && ArmedRight(NvmeStepOf(s))
  {
    hide Requests, Delivered, NvmeHolds, QueueHolds, FtlHolds, DoneHolds, Clean, FillWbc;
  }

  lemma TakeDoneKeepsTokens<P>(c: Setup<P>, s: Device<P>)
    requires Good(c, s) && Enabled(c, s, TakeDone) && ArmedRight(s)
    ensures Tokens(TakeDoneOf(s)) == Tokens(s) && ArmedRight(TakeDoneOf(s))
  {
    hide Requests, Delivered, NvmeHolds, QueueHolds, FtlHolds, DoneHolds, Clean, ClearWbc;
  }

  lemma TokensKept<P>(c: Setup<P>, s: Device<P>, ev: Event<P>)
    requires Good(c, s) && Enabled(c, s, ev) && ArmedRight(s)
    ensures Tokens(Step(c, s, ev)) == Tokens(s) && ArmedRight(Step(c, s, ev))
  {
    hide Good, NvmeStepOf, TakeDoneOf, MapAll, FreePages, ToProgram, EntryLpns, Range, Content, Accepted;
    if ev == NvmeStep { NvmeKeepsTokens(c, s); }
    if ev == TakeDone { TakeDoneKeepsTokens(c, s); }
  }

  /** A completed request schedules exactly one doorbell poll, an accepted one none before that, a refused one none
      at all. */
  lemma {:induction false} TokensConserved<P>(c: Setup<P>, s: Device<P>, evs: seq<Event<P>>)
    requires Good(c, s) && AllEnabled(c, s, evs) && ArmedRight(s)
    ensures Tokens(RunAll(c, s, evs)) == Tokens(s) && ArmedRight(RunAll(c, s, evs))
    decreases |evs|
  {
    hide Good, Step, Enabled, Tokens, ArmedRight;
    if evs != [] {
      TokensKept(c, s, evs[0]);
      StepKeeps(c, s, evs[0]);
      TokensConserved(c, Step(c, s, evs[0]), evs[1..]);
    }
  }

  /** Started with one doorbell poll, as initialize_nvme does, the device has at most one request at a time, and takes
      a command only when every write submitted so far is acknowledged and on flash. A flush command, which completes
      at once, is therefore durable. */
  lemma FlushIsDurable<P>(c: Setup<P>, s: Device<P>, evs: seq<Event<P>>)
    requires Starts(c, s) && s.polls == 1 && Good(c, s) && AllEnabled(c, s, evs)
    ensures var e := RunAll(c, s, evs);
            && |e.rq| + |e.wq| + (if e.inUse then 1 else 0) <= 1
            && (0 < e.polls ==>
                 && e.posted == |WritesOf(c, evs)| && Sound(c.g, e.media)
                 && Flat(c.g, e.media, c.zero) == Replay(c.disk, WritesOf(c, evs)))
  {
    hide Flat, Sound, Replay, MapAll, FreePages, Delivered, WritesOf, RunAll, AllEnabled;
    TokensConserved(c, s, evs);
    RunFromStart(c, s, evs);
    var e := RunAll(c, s, evs);
    if e.wq == [] { assert e.log + [] == e.log; }
  }

  /** Once a request has been refused, the device takes no further command: its one doorbell poll is gone. */
  lemma RefusalStopsPolling<P>(c: Setup<P>, s: Device<P>, evs: seq<Event<P>>)
    requires Starts(c, s) && s.polls == 1 && Good(c, s) && AllEnabled(c, s, evs)
    ensures var e := RunAll(c, s, evs);
            && e.refused == RefusalsOf(c, evs)
            && (0 < e.refused ==> e.polls == 0 && !e.arm && e.rq == [] && e.wq == [] && !e.inUse)
            && (e.refused == 0 ==>
              e.polls + (if e.arm then 1 else 0) + |e.rq| + |e.wq| + (if e.inUse then 1 else 0) == 1)
  {
    hide Good;
    TokensConserved(c, s, evs);
    RunFromStart(c, s, evs);
  }
}
