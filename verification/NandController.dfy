/** The NAND controllers as an event-driven machine: a command FIFO per channel, busy chips, and one DMA engine
    shared by each pair of channels. Completion events may come in any order. */
module NandController {

  type Page = seq<nat>

  datatype Row = Row(block: nat, page: nat)

  datatype Command =
    | ReadNand(chip: nat, row: Row)
    | ProgramNand(chip: nat, row: Row)
    | WriteDma(chip: nat, ram: nat)
    | ReadDma(chip: nat, ram: nat)

  /** A chip's page register, latched row, second program cycle still to come, and busy flag. */
  datatype Chip = Chip(busy: bool, reg: Page, row: Row, pending: bool)

  datatype Channel = Channel(
    chips: seq<Chip>,
    fifo: seq<Command>,
    active: nat,
    wait: bool,
    readDma: bool,
    writeDma: bool,
    ramPtr: nat,
    dmaChip: nat)

  datatype Current = Idle | Busy(channel: nat)

  datatype Engine = Engine(current: Current, toggle: bool)

  datatype Location = Location(channel: nat, chip: nat, row: Row)

  datatype Memory = Memory(image: map<Location, Page>, ram: map<nat, Page>)

  datatype Ctrl = Ctrl(chans: seq<Channel>, engines: seq<Engine>, mem: Memory)

  function At<K>(m: map<K, Page>, k: K): Page { if k in m then m[k] else [] }

  predicate Formed(s: Ctrl) { |s.chans| == 2 * |s.engines| }

  predicate CommandIn(s: Ctrl, k: nat, cmd: Command) { k < |s.chans| && cmd.chip < |s.chans[k].chips| }

  // ---- Transitions ---------------------------------------------------------------------

  // run_dma: prefers one channel of the pair or the other according to the toggle, then flips it.
  function RunDma(s: Ctrl, e: nat): Ctrl
    requires Formed(s) && e < |s.engines|
  {
    var first := if s.engines[e].toggle then 2 * e else 2 * e + 1;
    var second := if s.engines[e].toggle then 2 * e + 1 else 2 * e;
    var pick := if s.chans[first].wait then Busy(first)
                else if s.chans[second].wait then Busy(second)
                else s.engines[e].current;
    s.(engines := s.engines[e := Engine(pick, !s.engines[e].toggle)])
  }

  function ProcessDma(s: Ctrl, e: nat): Ctrl
    requires Formed(s) && e < |s.engines|
  {
    if s.engines[e].current.Busy? then s else RunDma(s, e)
  }

  function SetChip(ch: Channel, c: nat, chip: Chip): Channel
    requires c < |ch.chips|
  {
    ch.(chips := ch.chips[c := chip])
  }

  // The effect of one command on its channel, before the DMA engine is asked.
  function Issue(ch: Channel, k: nat, cmd: Command, mem: Memory): Channel
    requires cmd.chip < |ch.chips|
  {
    var chip := ch.chips[cmd.chip];
    match cmd
    case ReadNand(c, row) =>
      SetChip(ch, c,
        chip.(busy := true, reg := At(mem.image, Location(k, c, row)), row := row)).(active := ch.active + 1)
    case ProgramNand(c, row) =>
      SetChip(ch, c, chip.(row := row, pending := true))
    case WriteDma(c, r) =>
      ch.(active := ch.active + 1, writeDma := true, ramPtr := r, dmaChip := c, wait := true)
    case ReadDma(c, r) =>
      ch.(active := ch.active + 1, readDma := true, ramPtr := r, dmaChip := c, wait := true)
  }

  predicate CanIssue(ch: Channel) {
    !ch.wait && ch.fifo != [] && ch.fifo[0].chip < |ch.chips| && !ch.chips[ch.fifo[0].chip].busy
  }

  function IssueFront(s: Ctrl, k: nat): Ctrl
    requires Formed(s) && k < |s.chans| && CanIssue(s.chans[k])
  {
    var cmd := s.chans[k].fifo[0];
    var s' := s.(chans := s.chans[k := Issue(s.chans[k], k, cmd, s.mem).(fifo := s.chans[k].fifo[1..])]);
    if cmd.WriteDma? || cmd.ReadDma? then ProcessDma(s', k / 2) else s'
  }

  // process_waiting_room_cmd: issues commands in order until one has to wait.
  function Pump(s: Ctrl, k: nat): (s': Ctrl)
    requires Formed(s) && k < |s.chans|
    ensures Formed(s') && |s'.chans| == |s.chans|
    decreases |s.chans[k].fifo|
  {
    if CanIssue(s.chans[k]) then Pump(IssueFront(s, k), k) else s
  }

  function Push(s: Ctrl, k: nat, cmd: Command): Ctrl
    requires Formed(s) && k < |s.chans|
  {
    if s.chans[k].fifo == [] then Pump(Queued(s, k, cmd), k) else Queued(s, k, cmd)
  }

  function Queued(s: Ctrl, k: nat, cmd: Command): Ctrl
    requires k < |s.chans|
  {
    s.(chans := s.chans[k := s.chans[k].(fifo := s.chans[k].fifo + [cmd])])
  }

  // The transfer ends: data has moved, and a waiting second program cycle is written to the chip.
  function EndTransfer(s: Ctrl, k: nat): Ctrl
    requires k < |s.chans| && s.chans[k].dmaChip < |s.chans[k].chips| && 0 < s.chans[k].active
  {
    var ch := s.chans[k];
    var c := ch.dmaChip;
    var chip := ch.chips[c];
    var data := At(s.mem.ram, ch.ramPtr);
    var (ch', mem') :=
      if ch.readDma then
        if chip.pending then
          (SetChip(ch, c, chip.(busy := true, reg := data, pending := false)).(readDma := false),
           s.mem.(image := s.mem.image[Location(k, c, chip.row) := data]))
        else
          (SetChip(ch, c, chip.(reg := data)).(active := ch.active - 1), s.mem)
      else if ch.writeDma then
        (ch.(writeDma := false, active := ch.active - 1), s.mem.(ram := s.mem.ram[ch.ramPtr := chip.reg]))
      else (ch.(active := ch.active - 1), s.mem);
    s.(chans := s.chans[k := ch'.(dmaChip := 0, ramPtr := 0, wait := false)], mem := mem')
  }

  // dma_complete_call_back
  function DmaComplete(s: Ctrl, e: nat): Ctrl
    requires Formed(s) && e < |s.engines| && s.engines[e].current.Busy?
    requires var k := s.engines[e].current.channel;
             k < |s.chans| && s.chans[k].dmaChip < |s.chans[k].chips| && 0 < s.chans[k].active
  {
    var k := s.engines[e].current.channel;
    var s1 := EndTransfer(s, k);
    var s2 := s1.(engines := s1.engines[e := s1.engines[e].(current := Idle)]);
    Pump(RunDma(s2, e), k)
  }

  // operation_complete_call_back
  function OpComplete(s: Ctrl, k: nat, c: nat): Ctrl
    requires Formed(s) && k < |s.chans| && c < |s.chans[k].chips| && 0 < s.chans[k].active
  {
    Pump(OpEnded(s, k, c), k)
  }

  function OpEnded(s: Ctrl, k: nat, c: nat): Ctrl
    requires k < |s.chans| && c < |s.chans[k].chips| && 0 < s.chans[k].active
  {
    var ch := s.chans[k];
    s.(chans := s.chans[k := SetChip(ch, c, ch.chips[c].(busy := false)).(active := ch.active - 1)])
  }

  // ---- Invariant -------------------------------------------------------------------------

  datatype Half = Whole | Awaits(chip: nat)

  // A program command is always followed at once by the transfer that feeds it, and by nothing else.
  predicate Stream(cmds: seq<Command>, half: Half)
    decreases |cmds|
  {
    if cmds == [] then true
    else match half
      case Awaits(c) => cmds[0].ReadDma? && cmds[0].chip == c && Stream(cmds[1..], Whole)
      case Whole =>
        match cmds[0]
        case ProgramNand(c, _) => Stream(cmds[1..], Awaits(c))
        case ReadDma(_, _) => false
        case _ => Stream(cmds[1..], Whole)
  }

  function StreamEnd(cmds: seq<Command>, half: Half): Half
    decreases |cmds|
  {
    if cmds == [] then half
    else StreamEnd(cmds[1..], if cmds[0].ProgramNand? then Awaits(cmds[0].chip) else Whole)
  }

  predicate PendingIs(chips: seq<Chip>, half: Half) {
    && (forall c: nat | c < |chips| :: chips[c].pending <==> half == Awaits(c))
    && (half.Awaits? ==> half.chip < |chips|)
  }

  ghost function HalfOf(ch: Channel): Half {
    if exists c: nat :: c < |ch.chips| && ch.chips[c].pending
    then var c: nat :| c < |ch.chips| && ch.chips[c].pending; Awaits(c)
    else Whole
  }

  lemma HalfUnique(ch: Channel, half: Half)
    requires PendingIs(ch.chips, half)
    ensures HalfOf(ch) == half
  {
  }

  function BusyCount(chips: seq<Chip>): nat {
    if chips == [] then 0 else BusyCount(chips[1..]) + if chips[0].busy then 1 else 0
  }

  // What a channel's chips wait for: the transfer under way, or the next command in the FIFO.
  ghost predicate ChannelSound(ch: Channel) {
    var half := HalfOf(ch);
    && (forall i | 0 <= i < |ch.fifo| :: ch.fifo[i].chip < |ch.chips|)
    && PendingIs(ch.chips, half)
    && (half.Awaits? ==> !ch.chips[half.chip].busy)
    && (ch.wait <==> ch.readDma || ch.writeDma)
    && !(ch.readDma && ch.writeDma)
    && (ch.wait ==> ch.dmaChip < |ch.chips| && !ch.chips[ch.dmaChip].busy)
    && (ch.readDma ==> half == Awaits(ch.dmaChip))
    && (ch.writeDma ==> half == Whole)
    && Stream(ch.fifo, if ch.wait then Whole else half)
    && ch.active == BusyCount(ch.chips) + if ch.wait then 1 else 0
  }

  // Nothing can be issued until an event of this channel arrives.
  predicate Settled(ch: Channel) { !CanIssue(ch) }

  predicate EngineSound(s: Ctrl, e: nat)
    requires Formed(s) && e < |s.engines|
  {
    match s.engines[e].current
    case Idle => !s.chans[2 * e].wait && !s.chans[2 * e + 1].wait
    case Busy(k) => k / 2 == e && k < |s.chans| && s.chans[k].wait
  }

  ghost predicate ChannelsSound(s: Ctrl) { forall k | 0 <= k < |s.chans| :: ChannelSound(s.chans[k]) }

  ghost predicate Sound(s: Ctrl) {
    && Formed(s)
    && ChannelsSound(s)
    && (forall e | 0 <= e < |s.engines| :: EngineSound(s, e))
  }

  predicate AllSettled(s: Ctrl) { forall k | 0 <= k < |s.chans| :: Settled(s.chans[k]) }

  lemma {:induction false} BusyUpdate(chips: seq<Chip>, c: nat, chip: Chip)
    requires c < |chips|
    ensures BusyCount(chips[c := chip]) + (if chips[c].busy then 1 else 0) ==
            BusyCount(chips) + if chip.busy then 1 else 0
  {
    if c > 0 {
      BusyUpdate(chips[1..], c - 1, chip);
      assert chips[c := chip][1..] == chips[1..][c - 1 := chip];
    } else {
      assert chips[c := chip][1..] == chips[1..];
    }
  }

  lemma {:induction false} BusyBounded(chips: seq<Chip>)
    ensures BusyCount(chips) <= |chips|
  {
    if chips != [] { BusyBounded(chips[1..]); }
  }

  lemma {:induction false} BusyPositive(chips: seq<Chip>, c: nat)
    requires c < |chips| && chips[c].busy
    ensures 0 < BusyCount(chips)
  {
    if c > 0 { BusyPositive(chips[1..], c - 1); }
  }

  /** The 8-bit activity counter counts the busy chips and the transfer, so with at most 128 chips per channel
      it cannot wrap. */
  lemma ActiveFits(ch: Channel)
    requires ChannelSound(ch) && |ch.chips| <= 128
    ensures ch.active == BusyCount(ch.chips) + (if ch.wait then 1 else 0) <= |ch.chips| + 1 < 0x100
  {
    BusyBounded(ch.chips);
  }

  // ---- Each transition keeps the invariant ---------------------------------------------------

  lemma IssueKeepsChannel(ch: Channel, k: nat, mem: Memory)
    requires ChannelSound(ch) && CanIssue(ch)
    ensures ChannelSound(Issue(ch, k, ch.fifo[0], mem).(fifo := ch.fifo[1..]))
  {
    var cmd := ch.fifo[0];
    var ch' := Issue(ch, k, cmd, mem).(fifo := ch.fifo[1..]);
    var half := HalfOf(ch);
    BusyUpdate(ch.chips, cmd.chip, ch'.chips[cmd.chip]);
    HalfUnique(ch', if cmd.ProgramNand? then Awaits(cmd.chip) else half);
  }

  lemma IssueFrontKeeps(s: Ctrl, k: nat)
    requires Sound(s) && k < |s.chans| && CanIssue(s.chans[k])
    ensures Sound(IssueFront(s, k)) && |IssueFront(s, k).chans| == |s.chans|
    ensures IssueFront(s, k).mem == s.mem
    ensures IssueFront(s, k).chans ==
      s.chans[k := Issue(s.chans[k], k, s.chans[k].fifo[0], s.mem).(fifo := s.chans[k].fifo[1..])]
  {
    IssueKeepsChannel(s.chans[k], k, s.mem);
    IssueFrontIs(s, k);
    var s' := IssueFront(s, k);
    hide ChannelSound, Issue;
    forall j | 0 <= j < |s'.chans| ensures ChannelSound(s'.chans[j]) {}
  }

  lemma IssueFrontIs(s: Ctrl, k: nat)
    requires Sound(s) && k < |s.chans| && CanIssue(s.chans[k])
    ensures Formed(IssueFront(s, k)) && |IssueFront(s, k).engines| == |s.engines|
    ensures IssueFront(s, k).mem == s.mem
    ensures IssueFront(s, k).chans ==
      s.chans[k := Issue(s.chans[k], k, s.chans[k].fifo[0], s.mem).(fifo := s.chans[k].fifo[1..])]
    ensures forall e | 0 <= e < |s.engines| :: EngineSound(IssueFront(s, k), e)
  {
    hide ChannelSound;
    var s' := IssueFront(s, k);
    forall e | 0 <= e < |s'.engines| ensures EngineSound(s', e) {
      assert EngineSound(s, e);
    }
  }

  lemma {:induction false} PumpKeeps(s: Ctrl, k: nat)
    requires Sound(s) && k < |s.chans|
    ensures Sound(Pump(s, k)) && Settled(Pump(s, k).chans[k])
    ensures forall j | 0 <= j < |s.chans| && j != k :: Pump(s, k).chans[j] == s.chans[j]
    ensures Pump(s, k).mem == s.mem
    decreases |s.chans[k].fifo|
  {
    if CanIssue(s.chans[k]) {
      IssueFrontKeeps(s, k);
      PumpKeeps(IssueFront(s, k), k);
    }
  }

  lemma EndTransferKeepsChannel(s: Ctrl, k: nat)
    requires k < |s.chans| && ChannelSound(s.chans[k]) && s.chans[k].wait
    ensures 0 < s.chans[k].active && s.chans[k].dmaChip < |s.chans[k].chips|
    ensures ChannelSound(EndTransfer(s, k).chans[k]) && !EndTransfer(s, k).chans[k].wait
    ensures EndTransfer(s, k).chans == s.chans[k := EndTransfer(s, k).chans[k]]
    ensures EndTransfer(s, k).engines == s.engines
    ensures EndTransfer(s, k).chans[k].fifo == s.chans[k].fifo
  {
    var ch := s.chans[k];
    var ch' := EndTransfer(s, k).chans[k];
    BusyUpdate(ch.chips, ch.dmaChip, ch'.chips[ch.dmaChip]);
    HalfUnique(ch', Whole);
  }

  // The engine after a transfer of channel k of its pair: the other channel gets it if it waits.
  function HandOver(s: Ctrl, e: nat): Ctrl
    requires Formed(s) && e < |s.engines|
  {
    RunDma(s.(engines := s.engines[e := s.engines[e].(current := Idle)]), e)
  }

  lemma HandOverKeeps(s: Ctrl, e: nat)
    requires Formed(s) && ChannelsSound(s) && e < |s.engines|
    requires !s.chans[2 * e].wait || !s.chans[2 * e + 1].wait
    requires forall f | 0 <= f < |s.engines| && f != e :: EngineSound(s, f)
    ensures Sound(HandOver(s, e)) && HandOver(s, e).chans == s.chans && HandOver(s, e).mem == s.mem
  {
    var s' := HandOver(s, e);
    assert EngineSound(s', e);
    forall f | 0 <= f < |s'.engines| && f != e ensures EngineSound(s', f) {
      assert EngineSound(s, f);
    }
  }

  lemma DmaCompleteKeeps(s: Ctrl, e: nat)
    requires Sound(s) && AllSettled(s) && e < |s.engines| && s.engines[e].current.Busy?
    ensures CanComplete(s, e)
    ensures Sound(DmaComplete(s, e)) && AllSettled(DmaComplete(s, e)) && |DmaComplete(s, e).chans| == |s.chans|
  {
    assert EngineSound(s, e);
    var k := s.engines[e].current.channel;
    assert ChannelSound(s.chans[k]);
    EndTransferKeepsChannel(s, k);
    var s1 := EndTransfer(s, k);
    forall j | 0 <= j < |s1.chans| ensures ChannelSound(s1.chans[j]) {}
    forall f | 0 <= f < |s1.engines| && f != e ensures EngineSound(s1, f) {
      assert EngineSound(s, f);
    }
    HandOverKeeps(s1, e);
    PumpKeeps(HandOver(s1, e), k);
  }

  ghost predicate CanComplete(s: Ctrl, e: nat) {
    && Formed(s) && e < |s.engines| && s.engines[e].current.Busy?
    && var k := s.engines[e].current.channel;
       k < |s.chans| && s.chans[k].dmaChip < |s.chans[k].chips| && 0 < s.chans[k].active
  }

  lemma OpEndedKeepsChannel(ch: Channel, c: nat)
    requires ChannelSound(ch) && c < |ch.chips| && ch.chips[c].busy
    ensures 0 < ch.active
    ensures ChannelSound(SetChip(ch, c, ch.chips[c].(busy := false)).(active := ch.active - 1))
  {
    BusyPositive(ch.chips, c);
    var ch' := SetChip(ch, c, ch.chips[c].(busy := false)).(active := ch.active - 1);
    BusyUpdate(ch.chips, c, ch'.chips[c]);
    HalfUnique(ch', HalfOf(ch));
  }

  lemma OpEndedKeeps(s: Ctrl, k: nat, c: nat)
    requires Sound(s) && k < |s.chans| && c < |s.chans[k].chips| && s.chans[k].chips[c].busy
    ensures 0 < s.chans[k].active
    ensures Sound(OpEnded(s, k, c))
  {
    hide ChannelSound;
    OpEndedKeepsChannel(s.chans[k], c);
    var s1 := OpEnded(s, k, c);
    forall j | 0 <= j < |s1.chans| ensures ChannelSound(s1.chans[j]) {}
    forall f | 0 <= f < |s1.engines| ensures EngineSound(s1, f) {
      assert EngineSound(s, f);
    }
  }

  lemma OpCompleteKeeps(s: Ctrl, k: nat, c: nat)
    requires Sound(s) && AllSettled(s) && k < |s.chans| && c < |s.chans[k].chips| && s.chans[k].chips[c].busy
    ensures 0 < s.chans[k].active
    ensures Sound(OpComplete(s, k, c)) && AllSettled(OpComplete(s, k, c)) && |OpComplete(s, k, c).chans| == |s.chans|
  {
    OpEndedKeeps(s, k, c);
    PumpKeeps(OpEnded(s, k, c), k);
  }

  // A command the firmware may push: for an existing chip, and keeping each program with its transfer.
  ghost predicate MayPush(s: Ctrl, k: nat, cmd: Command) {
    && CommandIn(s, k, cmd)
    && var ch := s.chans[k];
       Stream(ch.fifo + [cmd], if ch.wait then Whole else HalfOf(ch))
  }

  lemma QueuedKeeps(s: Ctrl, k: nat, cmd: Command)
    requires Sound(s) && MayPush(s, k, cmd)
    ensures Sound(Queued(s, k, cmd))
  {
    var s1 := Queued(s, k, cmd);
    assert ChannelSound(s.chans[k]);
    HalfUnique(s1.chans[k], HalfOf(s.chans[k]));
    forall j | 0 <= j < |s1.chans| ensures ChannelSound(s1.chans[j]) {}
    forall f | 0 <= f < |s1.engines| ensures EngineSound(s1, f) {
      assert EngineSound(s, f);
    }
  }

  lemma PushKeeps(s: Ctrl, k: nat, cmd: Command)
    requires Sound(s) && AllSettled(s) && MayPush(s, k, cmd)
    ensures Sound(Push(s, k, cmd)) && AllSettled(Push(s, k, cmd)) && |Push(s, k, cmd).chans| == |s.chans|
  {
    QueuedKeeps(s, k, cmd);
    PumpKeeps(Queued(s, k, cmd), k);
    assert Settled(s.chans[k]);
  }
}
