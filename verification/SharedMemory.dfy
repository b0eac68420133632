/** The handshake between the simulated device and the host through shared memory: a ring of messages and a single page
    register that both sides read and write. The two sides interleave at every access. */
module SharedMemory {
  import opened Rings
  import opened HostDma

  // ---- State ----------------------------------------------------------------------------------------------------

  // Data from the host, data to the host, or the enabling of an interrupt vector, which moves no data.
  datatype Kind = Fetch | Deliver | Vector

  datatype Cmd = Cmd(kind: Kind, hostAddr: nat, ssdAddr: nat, size: nat)

  datatype Msg = Msg(kind: Kind, hostAddr: nat, ssdAddr: nat, size: nat, ready: bool)

  datatype Status = Free | Ready | Used

  /** Where the device stands in start_read_host, start_write_host and the events that follow. */
  datatype DevPc =
    | Idle
    | CleanPage(cmd: Cmd)
    | FillKind(cmd: Cmd)
    | MoveTail(cmd: Cmd)
    | FillRest(cmd: Cmd)
    | Announce(cmd: Cmd)
    | AwaitHost(cmd: Cmd)
    | IntoSsd(cmd: Cmd, i: nat)
    | GiveBack(cmd: Cmd)
    | FromSsd(cmd: Cmd, i: nat)
    | Offer(cmd: Cmd)
    | AwaitTaken(cmd: Cmd)

  /** Where the host's message thread stands. */
  datatype HostPc =
    | Poll
    | AwaitMsg
    | IntoPage(i: nat)
    | MarkReady
    | AwaitData
    | FromPage(i: nat)
    | MarkUsed
    | Notify

  /** `at` is the slot of the message the host has dequeued. History: the messages queued, in order; how many of them
      the host has dequeued; and both memories when the command under way was issued. */
  datatype Link<B> = Link(
    slots: seq<Msg>,
    head: nat,
    tail: nat,
    status: Status,
    page: seq<B>,
    host: seq<B>,
    ssd: seq<B>,
    complete: bool,
    dev: DevPc,
    hst: HostPc,
    at: nat,
    sent: seq<Cmd>,
    taken: nat,
    host0: seq<B>,
    ssd0: seq<B>)

  datatype Event = Issue(cmd: Cmd) | DevStep | HostStep

  predicate Fits<B>(s: Link<B>, cmd: Cmd) {
    cmd.size <= |s.page| && cmd.hostAddr + cmd.size <= |s.host| && cmd.ssdAddr + cmd.size <= |s.ssd|
  }

  predicate Enabled<B>(s: Link<B>, ev: Event) {
    match ev
    case Issue(cmd) => s.dev.Idle? && Fits(s, cmd)
    case DevStep =>
      && !s.dev.Idle?
      && (s.dev.FillKind? ==> 0 < |s.slots| && (s.tail + 1) % |s.slots| != s.head)
      && (s.dev.AwaitHost? ==> s.status == Ready)
      && (s.dev.AwaitTaken? ==> s.status == Used)
    case HostStep =>
      && s.at < |s.slots| && s.head < |s.slots|
      && (s.hst.Poll? ==> s.head != s.tail)
      && (s.hst.AwaitMsg? ==> s.slots[s.at].ready)
      && (s.hst.AwaitData? ==> s.status == Ready)
  }

  predicate Bounds<B>(s: Link<B>) {
    && 0 < |s.slots| && s.head < |s.slots| && s.tail < |s.slots| && s.at < |s.slots|
    && (!s.dev.Idle? ==> Fits(s, s.dev.cmd))
    && (s.dev.IntoSsd? ==> s.dev.i <= s.dev.cmd.size)
    && (s.dev.FromSsd? ==> s.dev.i <= s.dev.cmd.size)
    && ((s.hst.IntoPage? || s.hst.FromPage?) ==>
         s.slots[s.at].size <= |s.page| && s.slots[s.at].hostAddr + s.slots[s.at].size <= |s.host|)
  }

  // ---- Steps ------------------------------------------------------------------------------------------------------

  function IssueOf<B>(s: Link<B>, cmd: Cmd): Link<B> {
    s.(dev := if cmd.kind == Vector then FillKind(cmd) else CleanPage(cmd),
       complete := false, host0 := s.host, ssd0 := s.ssd)
  }

  function DevStepOf<B>(s: Link<B>): Link<B>
    requires Bounds(s) && Enabled(s, DevStep)
  {
    match s.dev
    case Idle => s
    case CleanPage(cmd) => s.(status := Free, dev := FillKind(cmd))
    case FillKind(cmd) => s.(slots := s.slots[s.tail := s.slots[s.tail].(kind := cmd.kind, ready := false)],
      dev := MoveTail(cmd))
    case MoveTail(cmd) => s.(tail := (s.tail + 1) % |s.slots|, sent := s.sent + [cmd], dev := FillRest(cmd))
    case FillRest(cmd) =>
      var slot := Last(s);
      s.(slots := s.slots[slot := s.slots[slot].(hostAddr := cmd.hostAddr, ssdAddr := cmd.ssdAddr, size := cmd.size)],
        dev := Announce(cmd))
    case Announce(cmd) =>
      var slot := Last(s);
      s.(slots := s.slots[slot := s.slots[slot].(ready := true)],
         complete := cmd.kind == Vector,
         dev := match cmd.kind case Fetch => AwaitHost(cmd) case Deliver => FromSsd(cmd, 0) case Vector => Idle)
    case AwaitHost(cmd) => s.(dev := IntoSsd(cmd, 0))
    case IntoSsd(cmd, i) =>
      if i < cmd.size then s.(ssd := s.ssd[cmd.ssdAddr + i := s.page[i]], dev := IntoSsd(cmd, i + 1))
      else s.(dev := GiveBack(cmd))
    case GiveBack(cmd) => s.(status := Used, complete := true, dev := Idle)
    case FromSsd(cmd, i) =>
      if i < cmd.size then s.(page := s.page[i := s.ssd[cmd.ssdAddr + i]], dev := FromSsd(cmd, i + 1))
      else s.(dev := Offer(cmd))
    case Offer(cmd) => s.(status := Ready, dev := AwaitTaken(cmd))
    case AwaitTaken(cmd) => s.(complete := true, dev := Idle)
  }

  // The slot before the tail: the message being prepared.
  function Last<B>(s: Link<B>): (r: nat)
    requires s.tail < |s.slots|
    ensures r < |s.slots|
  {
    if s.tail == 0 then |s.slots| - 1 else s.tail - 1
  }

  function HostStepOf<B>(s: Link<B>): Link<B>
    requires Bounds(s) && Enabled(s, HostStep)
  {
    var m := s.slots[s.at];
    match s.hst
    case Poll => s.(at := s.head, head := (s.head + 1) % |s.slots|, taken := s.taken + 1, hst := AwaitMsg)
    case AwaitMsg =>
      s.(hst := match m.kind case Fetch => IntoPage(0) case Deliver => AwaitData case Vector => Poll)
    case IntoPage(i) =>
      if i < m.size then s.(page := s.page[i := s.host[m.hostAddr + i]], hst := IntoPage(i + 1))
      else s.(hst := MarkReady)
    case MarkReady => s.(status := Ready, hst := Poll)
    case AwaitData => s.(hst := FromPage(0))
    case FromPage(i) =>
      if i < m.size then s.(host := s.host[m.hostAddr + i := s.page[i]], hst := FromPage(i + 1))
      else s.(hst := MarkUsed)
    case MarkUsed => s.(status := Used, hst := Notify)
    case Notify => s.(hst := Poll)
  }

  // ---- Invariant ----------------------------------------------------------------------------------------------------

  predicate RingGood<B>(s: Link<B>) {
    var n := |s.slots|;
    && 2 <= n && s.taken <= |s.sent| <= s.taken + n - 1
    && s.head == Slot(s.taken, n) && s.tail == Slot(|s.sent|, n) && s.at < n
    && (!s.hst.Poll? ==> 0 < s.taken && s.at == Slot(s.taken - 1, n))
  }

  // The device is filling the last message.
  predicate Preparing<B>(s: Link<B>) { s.dev.FillRest? || s.dev.Announce? }

  predicate Fields(m: Msg, c: Cmd) { m.hostAddr == c.hostAddr && m.ssdAddr == c.ssdAddr && m.size == c.size }

  predicate MsgRight<B>(s: Link<B>, k: nat)
    requires k < |s.sent| && 0 < |s.slots|
  {
    var m := s.slots[Slot(k, |s.slots|)];
    && m.kind == s.sent[k].kind
    && if Preparing(s) && k == |s.sent| - 1 then !m.ready && (s.dev.Announce? ==> Fields(m, s.sent[k]))
       else m.ready && Fields(m, s.sent[k])
  }

  /** Every message that is queued or in the host's hands is as the device wrote it. */
  predicate Messages<B>(s: Link<B>)
    requires 0 < |s.slots|
  {
    forall k | 0 <= k < |s.sent| && s.taken <= (if s.hst.Poll? then k else k + 1) :: MsgRight(s, k)
  }

  // The last message sent asks for data to be moved and has not been acknowledged.
  predicate DataCurrent<B>(s: Link<B>) {
    && (s.dev.FillRest? || s.dev.Announce? || s.dev.AwaitHost? || s.dev.FromSsd? || s.dev.Offer? || s.dev.AwaitTaken?)
    && s.dev.cmd.kind != Vector
  }

  predicate HoldsCurrent<B>(s: Link<B>) { DataCurrent(s) && !s.hst.Poll? && s.taken == |s.sent| }

  predicate Queue<B>(s: Link<B>) {
    && (!(s.dev.Idle? || s.dev.CleanPage? || s.dev.FillKind? || s.dev.MoveTail?) ==>
          s.sent != [] && s.dev.cmd == s.sent[|s.sent| - 1])
    && (s.dev.MoveTail? ==>
          |s.sent| + 1 <= s.taken + |s.slots| - 1 && s.tail < |s.slots| && s.slots[s.tail].kind == s.dev.cmd.kind
            && !s.slots[s.tail].ready)
    && (forall k | s.taken <= k < |s.sent| - (if DataCurrent(s) then 1 else 0) :: s.sent[k].kind == Vector)
    && (Preparing(s) && s.taken == |s.sent| ==> s.hst.AwaitMsg?)
  }

  // Away from the page register: polling, notifying, or holding a message that moves no data.
  predicate HostAway<B>(s: Link<B>) {
    s.hst.Poll? || s.hst.Notify? || (s.hst.AwaitMsg? && 0 < s.taken <= |s.sent| && s.sent[s.taken - 1].kind == Vector)
  }

  ghost predicate PageHas<B>(s: Link<B>, from: seq<B>, addr: nat, i: nat) {
    i <= |s.page| && addr + i <= |from| && s.page[..i] == from[addr..addr + i]
  }

  ghost predicate Untouched<B>(s: Link<B>) { s.host == s.host0 && s.ssd == s.ssd0 }

  /** What the page register and both memories hold, by where the two sides stand. */
  ghost predicate Data<B>(s: Link<B>) {
    && (!HoldsCurrent(s) ==> HostAway(s))
    && (!s.dev.Idle? ==> Fits(s, s.dev.cmd) && |s.host0| == |s.host| && |s.ssd0| == |s.ssd|)
    && match s.dev
       case Idle => true
       case CleanPage(cmd) => Untouched(s) && cmd.kind != Vector
       case FillKind(cmd) => Untouched(s) && (cmd.kind != Vector ==> s.status == Free)
       case MoveTail(cmd) => Untouched(s) && (cmd.kind != Vector ==> s.status == Free)
       case FillRest(cmd) => Untouched(s) && (cmd.kind != Vector ==> s.status == Free)
       case Announce(cmd) => Untouched(s) && (cmd.kind != Vector ==> s.status == Free)
       case AwaitHost(cmd) =>
         && Untouched(s) && cmd.kind == Fetch
         && if HoldsCurrent(s) then
              && s.status == Free
              && match s.hst
                 case AwaitMsg => true
                 case IntoPage(i) => i <= cmd.size && PageHas(s, s.host0, cmd.hostAddr, i)
                 case MarkReady => PageHas(s, s.host0, cmd.hostAddr, cmd.size)
                 case _ => false
            else if s.taken == |s.sent| then s.status == Ready && PageHas(s, s.host0, cmd.hostAddr, cmd.size)
            else s.status == Free
       case IntoSsd(cmd, i) =>
         && cmd.kind == Fetch && s.host == s.host0 && s.taken == |s.sent| && s.hst.Poll? && i <= cmd.size
         && PageHas(s, s.host0, cmd.hostAddr, cmd.size)
         && s.ssd == Spliced(s.ssd0, cmd.ssdAddr, s.page[..i])
       case GiveBack(cmd) =>
         && cmd.kind == Fetch && s.host == s.host0 && s.taken == |s.sent| && s.hst.Poll?
         && PageHas(s, s.host0, cmd.hostAddr, cmd.size)
         && s.ssd == Spliced(s.ssd0, cmd.ssdAddr, s.page[..cmd.size])
       case FromSsd(cmd, i) =>
         && cmd.kind == Deliver && Untouched(s) && s.status == Free && i <= cmd.size
         && PageHas(s, s.ssd0, cmd.ssdAddr, i)
         && (s.taken == |s.sent| ==> s.hst.AwaitMsg? || s.hst.AwaitData?)
       case Offer(cmd) =>
         && cmd.kind == Deliver && Untouched(s) && s.status == Free && PageHas(s, s.ssd0, cmd.ssdAddr, cmd.size)
         && (s.taken == |s.sent| ==> s.hst.AwaitMsg? || s.hst.AwaitData?)
       case AwaitTaken(cmd) =>
         && cmd.kind == Deliver && s.ssd == s.ssd0 && PageHas(s, s.ssd0, cmd.ssdAddr, cmd.size)
         && if s.taken < |s.sent| then s.status == Ready && s.host == s.host0
            else
              match s.hst
              case AwaitMsg => s.status == Ready && s.host == s.host0
              case AwaitData => s.status == Ready && s.host == s.host0
              case FromPage(i) => s.status == Ready && i <= cmd.size
                && s.host == Spliced(s.host0, cmd.hostAddr, s.page[..i])
              case MarkUsed => s.status == Ready && s.host == Spliced(s.host0, cmd.hostAddr, s.page[..cmd.size])
              case Notify => s.status == Used && s.host == Spliced(s.host0, cmd.hostAddr, s.page[..cmd.size])
              case Poll => s.status == Used && s.host == Spliced(s.host0, cmd.hostAddr, s.page[..cmd.size])
              case _ => false
  }

  ghost predicate Good<B>(s: Link<B>) { RingGood(s) && Messages(s) && Queue(s) && Data(s) }

  lemma GoodBounds<B>(s: Link<B>)
    requires Good(s)
    ensures Bounds(s)
  {
    hide Slot, Spliced;
    if s.hst.IntoPage? || s.hst.FromPage? {
      assert MsgRight(s, s.taken - 1);
    }
  }

  function Step<B>(s: Link<B>, ev: Event): Link<B>
    requires Bounds(s) && Enabled(s, ev)
  {
    match ev
    case Issue(cmd) => IssueOf(s, cmd)
    case DevStep => DevStepOf(s)
    case HostStep => HostStepOf(s)
  }

  // ---- Each step keeps the invariant -----------------------------------------------------------------------------

  lemma IssueKeeps<B>(s: Link<B>, cmd: Cmd)
    requires Good(s) && Enabled(s, Issue(cmd))
    ensures Good(IssueOf(s, cmd))
  {
    hide Slot, Spliced;
    var t := IssueOf(s, cmd);
    forall k | 0 <= k < |t.sent| && t.taken <= (if t.hst.Poll? then k else k + 1) ensures MsgRight(t, k) {
      assert MsgRight(s, k);
    }
  }

  lemma RingPositions<B>(s: Link<B>, k: nat)
    requires RingGood(s) && s.taken <= k + 1 && k < |s.sent|
    ensures |s.sent| < s.taken + |s.slots| - 1 ==> Slot(k, |s.slots|) != s.tail
    ensures k < |s.sent| - 1 ==> Slot(k, |s.slots|) != Slot(|s.sent| - 1, |s.slots|)
  {
    hide Slot;
    if |s.sent| < s.taken + |s.slots| - 1 { SlotsDiffer(k, |s.sent|, |s.slots|); }
    if k < |s.sent| - 1 { SlotsDiffer(k, |s.sent| - 1, |s.slots|); }
  }

  lemma LastIs<B>(s: Link<B>)
    requires RingGood(s) && s.sent != []
    ensures s.tail < |s.slots| && Last(s) == Slot(|s.sent| - 1, |s.slots|)
  {
    NextPosition(|s.sent| - 1, |s.slots|);
  }

  // The slot after the tail is the head only when the ring is full.
  lemma NotFull<B>(s: Link<B>)
    requires RingGood(s) && (s.tail + 1) % |s.slots| != s.head
    ensures |s.sent| < s.taken + |s.slots| - 1
  {
    if |s.sent| == s.taken + |s.slots| - 1 {
      NextSlot(|s.sent|, |s.slots|);
      OneLap(s.taken, |s.slots|);
    }
  }

  lemma NextSlot(k: nat, n: nat)
    requires 0 < n
    ensures (Slot(k, n) + 1) % n == Slot(k + 1, n)
  {
    NextPosition(k, n);
    WrapIsMod(Slot(k, n) + 1, n);
  }

  predicate RingStep<B>(s: Link<B>) { s.dev.FillKind? || s.dev.MoveTail? || s.dev.FillRest? || s.dev.Announce? }

  lemma DevRingGood<B>(s: Link<B>)
    requires Good(s) && Bounds(s) && Enabled(s, DevStep) && RingStep(s)
    ensures RingGood(DevStepOf(s))
  {
    hide Slot, Spliced, Data, PageHas, Messages;
    if s.dev.FillKind? { NotFull(s); } else if s.dev.MoveTail? { NextSlot(|s.sent|, |s.slots|); } else { LastIs(s); }
  }

  lemma DevMessage<B>(s: Link<B>, k: nat)
    requires RingGood(s) && Queue(s) && Bounds(s) && Enabled(s, DevStep) && RingStep(s)
    requires k < |DevStepOf(s).sent| && s.taken <= k + 1 && (k < |s.sent| ==> MsgRight(s, k))
    ensures 0 < |DevStepOf(s).slots| && MsgRight(DevStepOf(s), k)
  {
    hide Slot, Spliced, Data, PageHas, Messages;
    if s.dev.FillKind? { NotFull(s); } else if !s.dev.MoveTail? { LastIs(s); }
    if k < |s.sent| { RingPositions(s, k); }
  }

  lemma DevRingMessages<B>(s: Link<B>)
    requires Good(s) && Bounds(s) && Enabled(s, DevStep) && RingStep(s)
    ensures RingGood(DevStepOf(s)) && Messages(DevStepOf(s))
  {
    hide Slot, Spliced, Data, PageHas, Queue, MsgRight;
    DevRingGood(s);
    var t := DevStepOf(s);
    forall k | 0 <= k < |t.sent| && t.taken <= (if t.hst.Poll? then k else k + 1) ensures MsgRight(t, k) {
      DevMessage(s, k);
    }
  }

  lemma DevRingKeeps<B>(s: Link<B>)
    requires Good(s) && Bounds(s) && Enabled(s, DevStep) && RingStep(s)
    ensures Good(DevStepOf(s))
  {
    hide Slot, Spliced, Messages, PageHas;
    DevRingMessages(s);
    if s.dev.FillKind? { NotFull(s); }
    if s.dev.Announce? { NothingInPage(DevStepOf(s), s.ssd0, s.dev.cmd.ssdAddr); }
  }

  // Messages stay as they are when only the data side changes.
  lemma SameMessages<B>(s: Link<B>, t: Link<B>)
    requires 0 < |s.slots| && Messages(s) && t.slots == s.slots && t.sent == s.sent && Preparing(t) == Preparing(s)
    requires s.dev.Announce? == t.dev.Announce?
    requires s.taken <= t.taken && (s.taken == t.taken && s.hst.Poll? && !t.hst.Poll? ==> s.taken > |s.sent|)
    requires s.hst.Poll? && t.taken > s.taken ==> t.taken == s.taken + 1
    ensures Messages(t)
  {
    hide Slot;
    forall k | 0 <= k < |t.sent| && t.taken <= (if t.hst.Poll? then k else k + 1) ensures MsgRight(t, k) {
      assert MsgRight(s, k);
    }
  }

  lemma SplicedNext<B>(ram: seq<B>, at: nat, page: seq<B>, i: nat)
    requires i < |page| && at + i < |ram|
    ensures Spliced(ram, at, page[..i])[at + i := page[i]] == Spliced(ram, at, page[..i + 1])
  {
  }

  lemma SplicedNone<B>(ram: seq<B>, at: nat, page: seq<B>)
    requires at <= |ram|
    ensures Spliced(ram, at, page[..0]) == ram
  {
  }

  lemma PageHasNext<B>(s: Link<B>, t: Link<B>, from: seq<B>, addr: nat, i: nat)
    requires PageHas(s, from, addr, i) && i < |s.page| && addr + i < |from| && t.page == s.page[i := from[addr + i]]
    ensures PageHas(t, from, addr, i + 1)
  {
    assert from[addr..addr + i + 1] == from[addr..addr + i] + [from[addr + i]];
    assert t.page[..i + 1] == s.page[..i] + [from[addr + i]];
  }

  lemma PageHasSame<B>(s: Link<B>, t: Link<B>, from: seq<B>, addr: nat, i: nat)
    requires PageHas(s, from, addr, i) && t.page == s.page
    ensures PageHas(t, from, addr, i)
  {
  }

  lemma IntoSsdKeeps<B>(s: Link<B>)
    requires Good(s) && Bounds(s) && Enabled(s, DevStep) && (s.dev.AwaitHost? || s.dev.IntoSsd? || s.dev.GiveBack?)
    ensures Good(DevStepOf(s))
  {
    hide Slot, Spliced, Messages;
    SameMessages(s, DevStepOf(s));
    var cmd := s.dev.cmd;
    if s.dev.AwaitHost? {
      SplicedNone(s.ssd, cmd.ssdAddr, s.page);
    } else if s.dev.IntoSsd? && s.dev.i < cmd.size {
      SplicedNext(s.ssd0, cmd.ssdAddr, s.page, s.dev.i);
    }
  }

  lemma FromSsdKeeps<B>(s: Link<B>)
    requires Good(s) && Bounds(s) && Enabled(s, DevStep)
    requires (s.dev.CleanPage? || s.dev.FromSsd? || s.dev.Offer? || s.dev.AwaitTaken?)
    ensures Good(DevStepOf(s))
  {
    hide Slot, Spliced, Messages, PageHas;
    var t := DevStepOf(s);
    SameMessages(s, t);
    var cmd := s.dev.cmd;
    if s.dev.FromSsd? {
      if s.dev.i < cmd.size {
        PageHasNext(s, t, s.ssd0, cmd.ssdAddr, s.dev.i);
      } else {
        PageHasSame(s, t, s.ssd0, cmd.ssdAddr, cmd.size);
      }
    } else if s.dev.Offer? {
      PageHasSame(s, t, s.ssd0, cmd.ssdAddr, cmd.size);
    }
  }

  lemma HostPollKeeps<B>(s: Link<B>)
    requires Good(s) && Bounds(s) && Enabled(s, HostStep) && s.hst.Poll?
    ensures Good(HostStepOf(s))
  {
    hide Slot, Spliced, Messages, PageHas;
    var t := HostStepOf(s);
    NextSlot(s.taken, |s.slots|);
    SameMessages(s, t);
    KeepPage(s, t);
  }

  // Facts about the page carry over when nothing it holds changes.
  lemma KeepPage<B>(s: Link<B>, t: Link<B>)
    requires t.page == s.page
    ensures forall from, addr, i :: PageHas(s, from, addr, i) ==> PageHas(t, from, addr, i)
  {
  }

  // The message in the host's hands is the current command's when it asks for data.
  lemma HeldMessage<B>(s: Link<B>)
    requires Good(s) && !s.hst.Poll?
    ensures 0 < s.taken && s.at < |s.slots|
    ensures s.slots[s.at].kind == s.sent[s.taken - 1].kind
    ensures s.slots[s.at].ready <==> !(Preparing(s) && s.taken == |s.sent|)
    ensures s.slots[s.at].ready ==> Fields(s.slots[s.at], s.sent[s.taken - 1])
    ensures s.slots[s.at].kind != Vector && !s.hst.Notify? ==> HoldsCurrent(s) && s.dev.cmd == s.sent[s.taken - 1]
  {
    hide Slot, Spliced, PageHas;
    assert MsgRight(s, s.taken - 1);
  }

  lemma HostTakesKeeps<B>(s: Link<B>)
    requires Good(s) && Bounds(s) && Enabled(s, HostStep) && (s.hst.AwaitMsg? || s.hst.Notify? || s.hst.AwaitData?)
    ensures Good(HostStepOf(s))
  {
    hide Slot, Spliced, Messages, PageHas;
    var t := HostStepOf(s);
    HeldMessage(s);
    SameMessages(s, t);
    KeepPage(s, t);
    if HoldsCurrent(s) {
      SplicedNone(s.host0, s.dev.cmd.hostAddr, s.page);
      NothingInPage(t, s.host0, s.dev.cmd.hostAddr);
    }
  }

  lemma NothingInPage<B>(s: Link<B>, from: seq<B>, addr: nat)
    ensures addr <= |from| ==> PageHas(s, from, addr, 0)
  {
  }

  lemma IntoPageKeeps<B>(s: Link<B>)
    requires Good(s) && Bounds(s) && Enabled(s, HostStep) && (s.hst.IntoPage? || s.hst.MarkReady?)
    ensures Good(HostStepOf(s))
  {
    hide Slot, Spliced, Messages, PageHas;
    var t := HostStepOf(s);
    HeldMessage(s);
    SameMessages(s, t);
    var cmd := s.dev.cmd;
    if s.hst.IntoPage? && s.hst.i < cmd.size {
      PageHasNext(s, t, s.host0, cmd.hostAddr, s.hst.i);
    } else {
      KeepPage(s, t);
    }
  }

  lemma FromPageKeeps<B>(s: Link<B>)
    requires Good(s) && Bounds(s) && Enabled(s, HostStep) && (s.hst.FromPage? || s.hst.MarkUsed?)
    ensures Good(HostStepOf(s))
  {
    hide Slot, Spliced, Messages, PageHas;
    var t := HostStepOf(s);
    HeldMessage(s);
    SameMessages(s, t);
    KeepPage(s, t);
    var cmd := s.dev.cmd;
    if s.hst.FromPage? && s.hst.i < cmd.size {
      SplicedNext(s.host0, cmd.hostAddr, s.page, s.hst.i);
    }
  }

  lemma StepKeeps<B>(s: Link<B>, ev: Event)
    requires Good(s) && Bounds(s) && Enabled(s, ev)
    ensures Good(Step(s, ev))
  {
    hide Good, Bounds, Enabled, DevStepOf, HostStepOf, IssueOf;
    match ev
    case Issue(cmd) => IssueKeeps(s, cmd);
    case DevStep =>
      EnabledDev(s);
      match s.dev {
        case CleanPage(_) => FromSsdKeeps(s);
        case FromSsd(_, _) => FromSsdKeeps(s);
        case Offer(_) => FromSsdKeeps(s);
        case AwaitTaken(_) => FromSsdKeeps(s);
        case AwaitHost(_) => IntoSsdKeeps(s);
        case IntoSsd(_, _) => IntoSsdKeeps(s);
        case GiveBack(_) => IntoSsdKeeps(s);
        case _ => DevRingKeeps(s);
      }
    case HostStep =>
      match s.hst {
        case Poll => HostPollKeeps(s);
        case IntoPage(_) => IntoPageKeeps(s);
        case MarkReady => IntoPageKeeps(s);
        case FromPage(_) => FromPageKeeps(s);
        case MarkUsed => FromPageKeeps(s);
        case _ => HostTakesKeeps(s);
      }
  }

  lemma EnabledDev<B>(s: Link<B>)
    requires Enabled(s, DevStep)
    ensures !s.dev.Idle?
  {
  }

  // ---- Runs --------------------------------------------------------------------------------------------------------

  ghost predicate AllEnabled<B>(s: Link<B>, evs: seq<Event>)
    requires Good(s)
    decreases |evs|
  {
    GoodBounds(s);
    evs != [] ==> Enabled(s, evs[0]) && (StepKeeps(s, evs[0]); AllEnabled(Step(s, evs[0]), evs[1..]))
  }

  ghost function RunAll<B>(s: Link<B>, evs: seq<Event>): (s': Link<B>)
    requires Good(s) && AllEnabled(s, evs)
    ensures Good(s')
    decreases |evs|
  {
    GoodBounds(s);
    if evs == [] then s else
      StepKeeps(s, evs[0]);
      RunAll(Step(s, evs[0]), evs[1..])
  }

  /** Both queues empty, nobody doing anything. */
  predicate Connected<B>(s: Link<B>) {
    && 2 <= |s.slots| && s.head == s.tail == 0 && s.at < |s.slots|
    && s.dev.Idle? && s.hst.Poll? && s.sent == [] && s.taken == 0
  }

  lemma ConnectedGood<B>(s: Link<B>)
    requires Connected(s)
    ensures Good(s)
  {
    assert Slot(0, |s.slots|) == 0;
  }

  predicate DeviceOnPage<B>(s: Link<B>) { s.dev.IntoSsd? || s.dev.FromSsd? }

  predicate HostOnPage<B>(s: Link<B>) { s.hst.IntoPage? || s.hst.FromPage? }

  /** In every reachable state at most one side is at the page register, and while the device resets it for the next
      command the host is away from it. */
  lemma PageRegisterExclusive<B>(s: Link<B>, evs: seq<Event>)
    requires Connected(s) && Good(s) && AllEnabled(s, evs)
    ensures var e := RunAll(s, evs);
            && !(DeviceOnPage(e) && HostOnPage(e))
            && (e.dev.CleanPage? || e.dev.Idle? ==> HostAway(e))
  {
    hide Slot, Spliced, Messages, PageHas, RunAll, AllEnabled;
  }

  // What a command is meant to do to host memory and to the device's memory.
  ghost predicate Effect<B>(cmd: Cmd, host0: seq<B>, ssd0: seq<B>, host: seq<B>, ssd: seq<B>) {
    && cmd.hostAddr + cmd.size <= |host0| && cmd.ssdAddr + cmd.size <= |ssd0|
    && match cmd.kind
       case Vector => host == host0 && ssd == ssd0
       case Fetch => host == host0 && ssd == Spliced(ssd0, cmd.ssdAddr, host0[cmd.hostAddr..cmd.hostAddr + cmd.size])
       case Deliver => ssd == ssd0 && host == Spliced(host0, cmd.hostAddr, ssd0[cmd.ssdAddr..cmd.ssdAddr + cmd.size])
  }

  lemma MovedAtEnd<B>(s: Link<B>)
    requires Good(s) && Enabled(s, DevStep)
    requires s.dev.GiveBack? || s.dev.AwaitTaken? || (s.dev.Announce? && s.dev.cmd.kind == Vector)
    ensures Effect(s.dev.cmd, s.host0, s.ssd0, s.host, s.ssd)
  {
    hide Slot, Messages, Queue, RingGood, Spliced;
  }

  /** A command is reported complete only once its own data has been moved, all of it and nothing else. */
  lemma CompleteMeansMoved<B>(s: Link<B>)
    requires Good(s) && Bounds(s) && Enabled(s, DevStep) && DevStepOf(s).dev.Idle?
    ensures DevStepOf(s).complete
    ensures Effect(s.dev.cmd, s.host0, s.ssd0, DevStepOf(s).host, DevStepOf(s).ssd)
  {
    hide Slot, Messages, Data, Queue, Effect, RingGood;
    MovedAtEnd(s);
  }

  // A command issued with these memories is under way, or has been completed, has had its effect on them and has left
  // the page register marked as used.
  ghost predicate DoneOrUnderWay<B>(s: Link<B>, cmd: Cmd, host0: seq<B>, ssd0: seq<B>) {
    if s.dev.Idle? then
      s.complete && Effect(cmd, host0, ssd0, s.host, s.ssd) && (cmd.kind != Vector ==> s.status == Used)
    else !s.complete && s.dev.cmd == cmd && s.host0 == host0 && s.ssd0 == ssd0
  }

  lemma HostStepUnderWay<B>(s: Link<B>, cmd: Cmd, host0: seq<B>, ssd0: seq<B>)
    requires Good(s) && Bounds(s) && Enabled(s, HostStep) && DoneOrUnderWay(s, cmd, host0, ssd0)
    ensures DoneOrUnderWay(HostStepOf(s), cmd, host0, ssd0)
  {
    hide Slot, Messages, Queue, Effect, RingGood, Spliced, PageHas;
  }

  lemma DevStepUnderWay<B>(s: Link<B>, cmd: Cmd, host0: seq<B>, ssd0: seq<B>)
    requires Good(s) && Bounds(s) && Enabled(s, DevStep) && DoneOrUnderWay(s, cmd, host0, ssd0)
    ensures DoneOrUnderWay(DevStepOf(s), cmd, host0, ssd0)
  {
    hide Slot, Messages, Data, Queue, Effect, RingGood, Spliced, PageHas;
    if DevStepOf(s).dev.Idle? { CompleteMeansMoved(s); }
  }

  lemma {:induction false} RunUnderWay<B>(s: Link<B>, cmd: Cmd, host0: seq<B>, ssd0: seq<B>, evs: seq<Event>)
    requires Good(s) && AllEnabled(s, evs) && (forall i | 0 <= i < |evs| :: !evs[i].Issue?)
    requires DoneOrUnderWay(s, cmd, host0, ssd0)
    ensures DoneOrUnderWay(RunAll(s, evs), cmd, host0, ssd0)
    decreases |evs|
  {
    hide Good, Enabled, Bounds, DoneOrUnderWay, DevStepOf, HostStepOf, IssueOf;
    GoodBounds(s);
    if evs != [] {
      StepKeeps(s, evs[0]);
      if evs[0].DevStep? {
        DevStepUnderWay(s, cmd, host0, ssd0);
      } else {
        HostStepUnderWay(s, cmd, host0, ssd0);
      }
      RunUnderWay(Step(s, evs[0]), cmd, host0, ssd0, evs[1..]);
    }
  }

  /** Over every interleaving after a command is issued and until the next: the device stays with the command and does
      not report completion until the memories are those at issue with exactly this command's effect and, if data was
      moved, the page register is marked as used; and all this stays so while the host goes on. */
  lemma TransferOverRun<B>(s: Link<B>, evs: seq<Event>)
    requires Good(s) && AllEnabled(s, evs) && evs != [] && evs[0].Issue?
    requires forall i | 1 <= i < |evs| :: !evs[i].Issue?
    ensures DoneOrUnderWay(RunAll(s, evs), evs[0].cmd, s.host, s.ssd)
  {
    hide Good, Bounds;
    GoodBounds(s);
    StepKeeps(s, evs[0]);
    RunUnderWay(Step(s, evs[0]), evs[0].cmd, s.host, s.ssd, evs[1..]);
  }

  /** Until the command is complete, one of the two sides can move. */
  lemma HandshakeNeverSticks<B>(s: Link<B>)
    requires Good(s) && Bounds(s) && !s.dev.Idle?
    ensures Enabled(s, DevStep) || Enabled(s, HostStep)
  {
    hide Slot, Spliced, Messages, PageHas;
    if s.dev.FillKind? && (s.tail + 1) % |s.slots| == s.head {
      FullHasMessages(s);
    }
    if !s.hst.Poll? { HeldMessage(s); } else if s.taken < |s.sent| { HeadIsNotTail(s); }
  }

  lemma HeadIsNotTail<B>(s: Link<B>)
    requires RingGood(s) && s.taken < |s.sent|
    ensures s.head != s.tail
  {
    SlotsDiffer(s.taken, |s.sent|, |s.slots|);
  }

  lemma FullHasMessages<B>(s: Link<B>)
    requires RingGood(s) && (s.tail + 1) % |s.slots| == s.head
    ensures s.taken < |s.sent|
  {
    NextSlot(|s.sent|, |s.slots|);
    if s.taken == |s.sent| { SlotsDiffer(s.taken, s.taken + 1, |s.slots|); }
  }

  // ---- Every command completes -----------------------------------------------------------------------------------

  // The steps the device has left with its command, when a page holds w bytes and a new message costs the host
  // w + 6 steps.
  function DevLeft(dev: DevPc, w: nat): int {
    match dev
    case Idle => 0
    case GiveBack(_) => 1
    case IntoSsd(cmd, i) => cmd.size - i + 2
    case AwaitHost(cmd) => cmd.size + 3
    case AwaitTaken(_) => 1
    case Offer(_) => 2
    case FromSsd(cmd, i) => cmd.size - i + 3
    case Announce(cmd) => cmd.size + 4
    case FillRest(cmd) => cmd.size + 5
    case MoveTail(cmd) => cmd.size + 6 + (w + 6)
    case FillKind(cmd) => cmd.size + 7 + (w + 6)
    case CleanPage(cmd) => cmd.size + 8 + (w + 6)
  }

  function HostLeft(hst: HostPc, w: nat): int {
    match hst
    case Poll => 0
    case Notify => 1
    case MarkUsed => 2
    case FromPage(i) => w - i + 3
    case AwaitData => w + 4
    case MarkReady => 1
    case IntoPage(i) => w - i + 2
    case AwaitMsg => w + 5
  }

  function QueueLeft(messages: int, w: nat): nat { if messages <= 0 then 0 else w + 6 + QueueLeft(messages - 1, w) }

  /** A bound on the steps both sides can take until the next command. */
  function Left<B>(s: Link<B>): int {
    DevLeft(s.dev, |s.page|) + HostLeft(s.hst, |s.page|) + QueueLeft(|s.sent| - s.taken, |s.page|)
  }

  lemma LeftNotNegative<B>(s: Link<B>)
    requires Good(s)
    ensures 0 <= Left(s)
  {
    hide Slot, Spliced, Messages, PageHas, QueueLeft;
    GoodBounds(s);
    InPage(s);
  }

  lemma InPage<B>(s: Link<B>)
    requires Good(s)
    ensures s.hst.IntoPage? || s.hst.FromPage? ==> s.hst.i <= |s.page|
  {
    hide Slot, Spliced;
    if !s.hst.Poll? { HeldMessage(s); }
  }

  lemma OneMessageMore(messages: int, w: nat)
    ensures 0 <= messages ==> QueueLeft(messages + 1, w) == w + 6 + QueueLeft(messages, w)
  {
  }

  // A step of the device changes only its place, except for the message that MoveTail adds.
  lemma DevStepAdds<B>(s: Link<B>)
    requires Bounds(s) && Enabled(s, DevStep)
    ensures var t := DevStepOf(s);
            && |t.page| == |s.page| && t.hst == s.hst && t.taken == s.taken
            && |t.sent| == |s.sent| + (if s.dev.MoveTail? then 1 else 0)
  {
  }

  lemma DevPcLess<B>(s: Link<B>)
    requires Bounds(s) && Enabled(s, DevStep)
    ensures DevLeft(DevStepOf(s).dev, |s.page|) <
            DevLeft(s.dev, |s.page|) - if s.dev.MoveTail? then |s.page| + 6 else 0
  {
  }

  lemma DevStepLess<B>(s: Link<B>)
    requires Good(s) && Bounds(s) && Enabled(s, DevStep)
    ensures Left(DevStepOf(s)) < Left(s)
  {
    hide Slot, Messages, Queue, Data, Bounds, Enabled, DevStepOf, DevLeft, HostLeft, QueueLeft;
    DevStepAdds(s);
    DevPcLess(s);
    OneMessageMore(|s.sent| - s.taken, |s.page|);
  }

  // A step of the host changes only its place, except that Poll takes a message.
  lemma HostStepTakes<B>(s: Link<B>)
    requires Bounds(s) && Enabled(s, HostStep)
    ensures var t := HostStepOf(s);
            && |t.page| == |s.page| && t.dev == s.dev && t.sent == s.sent
            && t.taken == s.taken + (if s.hst.Poll? then 1 else 0)
  {
  }

  lemma HostPcLess<B>(s: Link<B>)
    requires Bounds(s) && Enabled(s, HostStep) && (s.hst.IntoPage? || s.hst.FromPage? ==> s.hst.i <= |s.page|)
    ensures HostLeft(HostStepOf(s).hst, |s.page|) <
            HostLeft(s.hst, |s.page|) + if s.hst.Poll? then |s.page| + 6 else 0
  {
  }

  lemma HostStepLess<B>(s: Link<B>)
    requires Good(s) && Bounds(s) && Enabled(s, HostStep)
    ensures Left(HostStepOf(s)) < Left(s)
  {
    hide Slot, Messages, Queue, Data, Bounds, HostStepOf, DevLeft, HostLeft, QueueLeft;
    HostStepTakes(s);
    InPage(s);
    HostPcLess(s);
    OneMessageMore(|s.sent| - s.taken - 1, |s.page|);
  }

  lemma {:induction false} RunIsShort<B>(s: Link<B>, evs: seq<Event>)
    requires Good(s) && AllEnabled(s, evs) && forall i | 0 <= i < |evs| :: !evs[i].Issue?
    ensures |evs| <= Left(s) - Left(RunAll(s, evs))
    decreases |evs|
  {
    hide Good, Enabled, Bounds, Left, DevStepOf, HostStepOf, IssueOf;
    GoodBounds(s);
    if evs != [] {
      StepKeeps(s, evs[0]);
      if evs[0].DevStep? { DevStepLess(s); } else { HostStepLess(s); }
      RunIsShort(Step(s, evs[0]), evs[1..]);
    }
  }

  /** However the two sides interleave, a command comes to its end: until the next one is issued only boundedly many
      steps are possible, and a run that cannot go on has reported completion, with exactly this command's effect on
      both memories. */
  lemma EveryCommandCompletes<B>(s: Link<B>, evs: seq<Event>)
    requires Good(s) && AllEnabled(s, evs) && evs != [] && evs[0].Issue?
    requires forall i | 1 <= i < |evs| :: !evs[i].Issue?
    ensures |evs| - 1 <= Left(IssueOf(s, evs[0].cmd))
    ensures var e := RunAll(s, evs);
            !Enabled(e, DevStep) && !Enabled(e, HostStep) ==>
              e.dev.Idle? && e.complete && Effect(evs[0].cmd, s.host, s.ssd, e.host, e.ssd)
  {
    hide Good, Bounds, Enabled, Left, Effect;
    GoodBounds(s);
    StepKeeps(s, evs[0]);
    RunIsShort(IssueOf(s, evs[0].cmd), evs[1..]);
    var e := RunAll(s, evs);
    GoodBounds(e);
    LeftNotNegative(e);
    TransferOverRun(s, evs);
    if !e.dev.Idle? { HandshakeNeverSticks(e); }
  }
}
