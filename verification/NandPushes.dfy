/** The commands of a flash operation may be pushed whatever has happened meanwhile, and they fit the FIFOs. */
module NandPushes {
  import opened Geometry
  import opened NandIo
  import opened NandController
  import opened NandSerialisation
  import opened NandDriver

  // ---- What a channel will be waiting for when its queue is done -------------------------------------------

  lemma {:induction false} StreamLast(cmds: seq<Command>, cmd: Command, half: Half)
    ensures Stream(cmds + [cmd], half) <==> Stream(cmds, half) && Stream([cmd], StreamEnd(cmds, half))
    ensures StreamEnd(cmds + [cmd], half) == if cmd.ProgramNand? then Awaits(cmd.chip) else Whole
    decreases |cmds|
  {
    if cmds == [] {
      assert [] + [cmd] == [cmd] && [cmd][1..] == [];
    } else {
      assert (cmds + [cmd])[1..] == cmds[1..] + [cmd];
      StreamLast(cmds[1..], cmd, if cmds[0].ProgramNand? then Awaits(cmds[0].chip) else Whole);
    }
  }

  /** The half-finished program, if any, at the end of a channel's queue. */
  ghost function TailHalf(ch: Channel): Half { StreamEnd(ch.fifo, if ch.wait then Whole else HalfOf(ch)) }

  lemma IssueKeepsTail(ch: Channel, k: nat, mem: Memory)
    requires ChannelSound(ch) && CanIssue(ch)
    ensures var ch' := Issue(ch, k, ch.fifo[0], mem).(fifo := ch.fifo[1..]);
            TailHalf(ch') == TailHalf(ch) && |ch'.chips| == |ch.chips| && |ch'.fifo| < |ch.fifo|
  {
    var cmd := ch.fifo[0];
    var ch' := Issue(ch, k, cmd, mem).(fifo := ch.fifo[1..]);
    IssueKeepsChannel(ch, k, mem);
    HalfUnique(ch', if cmd.ProgramNand? then Awaits(cmd.chip) else HalfOf(ch));
  }

  lemma {:induction false} PumpKeepsTail(s: Ctrl, k: nat)
    requires Sound(s) && k < |s.chans|
    ensures |Pump(s, k).chans| == |s.chans|
    ensures TailHalf(Pump(s, k).chans[k]) == TailHalf(s.chans[k])
    ensures |Pump(s, k).chans[k].chips| == |s.chans[k].chips| && |Pump(s, k).chans[k].fifo| <= |s.chans[k].fifo|
    decreases |s.chans[k].fifo|
  {
    hide TailHalf, ChannelSound;
    if CanIssue(s.chans[k]) {
      IssueFrontKeeps(s, k);
      IssueTail(s, k);
      PumpKeepsTail(IssueFront(s, k), k);
    }
  }

  lemma IssueTail(s: Ctrl, k: nat)
    requires Sound(s) && k < |s.chans| && CanIssue(s.chans[k])
    ensures k < |IssueFront(s, k).chans|
    ensures TailHalf(IssueFront(s, k).chans[k]) == TailHalf(s.chans[k])
    ensures |IssueFront(s, k).chans[k].chips| == |s.chans[k].chips|
    ensures |IssueFront(s, k).chans[k].fifo| < |s.chans[k].fifo|
  {
    hide TailHalf, Issue;
    IssueFrontKeeps(s, k);
    IssueKeepsTail(s.chans[k], k, s.mem);
  }

  lemma TransferKeepsTail(s: Ctrl, k: nat)
    requires k < |s.chans| && ChannelSound(s.chans[k]) && s.chans[k].wait
    requires s.chans[k].dmaChip < |s.chans[k].chips| && 0 < s.chans[k].active
    ensures k < |EndTransfer(s, k).chans|
    ensures TailHalf(EndTransfer(s, k).chans[k]) == TailHalf(s.chans[k])
    ensures |EndTransfer(s, k).chans[k].chips| == |s.chans[k].chips|
    ensures EndTransfer(s, k).chans[k].fifo == s.chans[k].fifo
  {
    EndTransferKeepsChannel(s, k);
    HalfUnique(EndTransfer(s, k).chans[k], Whole);
  }

  // What one event does to a channel's tail, chips and FIFO.
  ghost predicate TailAfter(ch: Channel, ch': Channel, ev: Event, k: nat) {
    && |ch'.chips| == |ch.chips|
    && (if ev.PushCmd? && ev.k == k then
          TailHalf(ch') == (if ev.cmd.ProgramNand? then Awaits(ev.cmd.chip) else Whole) && |ch'.fifo| <= |ch.fifo| + 1
        else TailHalf(ch') == TailHalf(ch) && |ch'.fifo| <= |ch.fifo|)
  }

  lemma DmaDoneTail(s: Ctrl, e: nat, k: nat)
    requires Good(s) && Enabled(s, DmaDone(e)) && k < |s.chans|
    ensures TailAfter(s.chans[k], Step(s, DmaDone(e)).chans[k], DmaDone(e), k)
  {
    DmaCompleteKeeps(s, e);
    var j := s.engines[e].current.channel;
    TransferSound(s, e, j);
    hide TailHalf, EndTransfer, HandOver, Pump;
    TransferKeepsTail(s, j);
    PumpKeepsTail(HandOver(EndTransfer(s, j), e), j);
    PumpKeeps(HandOver(EndTransfer(s, j), e), j);
  }

  lemma OpDoneTail(s: Ctrl, j: nat, c: nat, k: nat)
    requires Good(s) && Enabled(s, OpDone(j, c)) && k < |s.chans|
    ensures TailAfter(s.chans[k], Step(s, OpDone(j, c)).chans[k], OpDone(j, c), k)
  {
    OpCompleteKeeps(s, j, c);
    OpEndedKeeps(s, j, c);
    assert ChannelSound(s.chans[j]);
    HalfUnique(OpEnded(s, j, c).chans[j], HalfOf(s.chans[j]));
    hide Pump;
    PumpKeepsTail(OpEnded(s, j, c), j);
    PumpKeeps(OpEnded(s, j, c), j);
  }

  lemma PushTail(s: Ctrl, j: nat, cmd: Command, k: nat)
    requires Good(s) && Enabled(s, PushCmd(j, cmd)) && k < |s.chans|
    ensures TailAfter(s.chans[k], Step(s, PushCmd(j, cmd)).chans[k], PushCmd(j, cmd), k)
  {
    PushKeeps(s, j, cmd);
    QueuedKeeps(s, j, cmd);
    QueuedTail(s, j, cmd);
    hide Pump, TailHalf, Sound;
    PumpKeepsTail(Queued(s, j, cmd), j);
    PumpKeeps(Queued(s, j, cmd), j);
  }

  lemma QueuedTail(s: Ctrl, j: nat, cmd: Command)
    requires j < |s.chans| && Sound(s)
    ensures TailHalf(Queued(s, j, cmd).chans[j]) == if cmd.ProgramNand? then Awaits(cmd.chip) else Whole
  {
    var ch := s.chans[j];
    StreamLast(ch.fifo, cmd, if ch.wait then Whole else HalfOf(ch));
    assert ChannelSound(ch);
    HalfUnique(Queued(s, j, cmd).chans[j], HalfOf(ch));
  }

  lemma StepTail(s: Ctrl, ev: Event, k: nat)
    requires Good(s) && Enabled(s, ev) && k < |s.chans|
    ensures TailAfter(s.chans[k], Step(s, ev).chans[k], ev, k)
  {
    hide *;
    match ev
    case DmaDone(e) => DmaDoneTail(s, e, k);
    case OpDone(j, c) => OpDoneTail(s, j, c, k);
    case PushCmd(j, cmd) => PushTail(s, j, cmd, k);
  }

  // ---- Over a run -----------------------------------------------------------------------------------------------

  // The tail after pushing these commands to a channel.
  function TailOf(cmds: seq<Command>, half: Half): Half {
    if cmds == [] then half else if cmds[|cmds| - 1].ProgramNand? then Awaits(cmds[|cmds| - 1].chip) else Whole
  }

  /** Completion events never change what a channel waits for at the end of its queue; and its queue is no longer than
      the number of commands pushed to it. */
  lemma {:induction false} RunTail(s: Ctrl, evs: seq<Event>, k: nat)
    requires Good(s) && AllEnabled(s, evs) && k < |s.chans|
    ensures var ch, ch' := s.chans[k], Run(s, evs).chans[k];
            && |ch'.chips| == |ch.chips|
            && TailHalf(ch') == TailOf(Of(Pushed(evs), k), TailHalf(ch))
            && |ch'.fifo| <= |ch.fifo| + |Of(Pushed(evs), k)|
    decreases |evs|
  {
    hide Good, Enabled, Step, TailHalf;
    if evs != [] {
      StepTail(s, evs[0], k);
      RunTail(Step(s, evs[0]), evs[1..], k);
      if evs[0].PushCmd? {
        OfFirst(Issued(evs[0].k, evs[0].cmd), Pushed(evs[1..]), k);
      } else {
        assert Pushed(evs) == Pushed(evs[1..]);
      }
    }
  }

  lemma OfFirst(x: Issued, xs: seq<Issued>, k: nat)
    ensures Of([x] + xs, k) == if x.k == k then [x.cmd] + Of(xs, k) else Of(xs, k)
  {
    assert ([x] + xs)[1..] == xs;
  }

  lemma RestTail(s: Ctrl, k: nat)
    requires Good(s) && AtRest(s) && NonePending(s) && k < |s.chans|
    ensures TailHalf(s.chans[k]) == Whole && s.chans[k].fifo == []
  {
    assert Quiet(s.chans[k]) && ChannelSound(s.chans[k]);
    HalfUnique(s.chans[k], Whole);
  }

  // ---- The commands of an operation ----------------------------------------------------------------------------

  // Command j of a list may follow the commands before it.
  predicate MayFollow(cmds: seq<Issued>, j: nat)
    requires j < |cmds|
  {
    Stream([cmds[j].cmd], TailOf(Of(cmds[..j], cmds[j].k), Whole))
  }

  lemma {:induction false} NoReadIsProgram(g: Geometry, op: seq<PageOp>, j: nat)
    requires j < |ReadCommands(g, op)|
    ensures ReadCommands(g, op)[j].cmd.ReadNand? || ReadCommands(g, op)[j].cmd.WriteDma?
  {
    if op != [] && j < |ReadCommands(g, op[..|op| - 1])| { NoReadIsProgram(g, op[..|op| - 1], j); }
  }

  lemma {:induction false} PlainTail(cmds: seq<Issued>, k: nat)
    requires forall i | 0 <= i < |cmds| :: !cmds[i].cmd.ProgramNand?
    ensures TailOf(Of(cmds, k), Whole) == Whole
  {
    if cmds != [] {
      var n := |cmds| - 1;
      PlainTail(cmds[..n], k);
      assert cmds == cmds[..n] + [cmds[n]];
      OfLast(cmds[..n], cmds[n], k);
    }
  }

  lemma ReadsFollow(g: Geometry, op: seq<PageOp>, j: nat)
    requires j < |ReadCommands(g, op)|
    ensures MayFollow(ReadCommands(g, op), j)
  {
    var cmds := ReadCommands(g, op);
    forall i | 0 <= i < |cmds| ensures cmds[i].cmd.ReadNand? || cmds[i].cmd.WriteDma? { NoReadIsProgram(g, op, i); }
    PlainTail(cmds[..j], cmds[j].k);
    assert [cmds[j].cmd][1..] == [];
  }

  // Whole pairs leave nothing half done on any channel.
  lemma {:induction false} ProgramsLeaveNothing(g: Geometry, op: seq<PageOp>, k: nat)
    ensures TailOf(Of(ProgramCommands(g, op), k), Whole) == Whole
  {
    if op != [] {
      var n := |op| - 1;
      var pair := ProgramPair(g, op[n]);
      ProgramsLeaveNothing(g, op[..n], k);
      var before := ProgramCommands(g, op[..n]);
      assert ProgramCommands(g, op) == (before + [pair[0]]) + [pair[1]];
      OfLast(before, pair[0], k);
      OfLast(before + [pair[0]], pair[1], k);
    }
  }

  lemma {:induction false} ProgramsFollow(g: Geometry, op: seq<PageOp>, j: nat)
    requires j < |ProgramCommands(g, op)|
    ensures MayFollow(ProgramCommands(g, op), j)
  {
    if op != [] {
      var n := |op| - 1;
      var pair, before, cmds := ProgramPair(g, op[n]), ProgramCommands(g, op[..n]), ProgramCommands(g, op);
      if j < |before| {
        ProgramsFollow(g, op[..n], j);
        assert cmds[..j] == before[..j] && cmds[j] == before[j];
      } else {
        ProgramsLeaveNothing(g, op[..n], pair[0].k);
        OfLast(before, pair[0], pair[0].k);
        assert [pair[0].cmd][1..] == [] && [pair[1].cmd][1..] == [];
        if j == |before| { assert cmds[..j] == before; } else { assert cmds[..j] == before + [pair[0]]; }
      }
    }
  }

  // ---- The driver's pushes ---------------------------------------------------------------------------------------

  lemma MayPushIff(s: Ctrl, k: nat, cmd: Command)
    requires Good(s) && CommandIn(s, k, cmd)
    ensures MayPush(s, k, cmd) <==> Stream([cmd], TailHalf(s.chans[k]))
  {
    var ch := s.chans[k];
    assert ChannelSound(ch);
    StreamLast(ch.fifo, cmd, if ch.wait then Whole else HalfOf(ch));
  }

  /** From rest, with any completion events in between, the next command of a flash operation may always be pushed: the
      driver never has to wait for the controllers. */
  lemma PushAlwaysEnabled(g: Geometry, s: Ctrl, evs: seq<Event>, op: seq<PageOp>, cmds: seq<Issued>, j: nat)
    requires g.Valid() && Good(s) && AtRest(s) && NonePending(s) && Fits(g, s) && OpIn(g, op)
    requires cmds == ProgramCommands(g, op) || cmds == ReadCommands(g, op)
    requires AllEnabled(s, evs) && j < |cmds| && Pushed(evs) == cmds[..j]
    ensures Enabled(Run(s, evs), PushCmd(cmds[j].k, cmds[j].cmd))
  {
    hide Good, AtRest, AllEnabled, Run, TailHalf, Stream, Enabled, NonePending;
    CommandsIn(g, s, op, j);
    var k := cmds[j].k;
    if cmds == ProgramCommands(g, op) { ProgramsFollow(g, op, j); } else { ReadsFollow(g, op, j); }
    RunTail(s, evs, k);
    RestTail(s, k);
    MayPushIff(Run(s, evs), k, cmds[j].cmd);
    EnabledPush(Run(s, evs), k, cmds[j].cmd);
  }

  lemma EnabledPush(s: Ctrl, k: nat, cmd: Command)
    ensures Enabled(s, PushCmd(k, cmd)) <==> MayPush(s, k, cmd)
  {
  }

  lemma {:induction false} CommandsIn(g: Geometry, s: Ctrl, op: seq<PageOp>, j: nat)
    requires g.Valid() && Fits(g, s) && OpIn(g, op)
    ensures j < |ProgramCommands(g, op)| ==> CommandIn(s, ProgramCommands(g, op)[j].k, ProgramCommands(g, op)[j].cmd)
    ensures j < |ReadCommands(g, op)| ==> CommandIn(s, ReadCommands(g, op)[j].k, ReadCommands(g, op)[j].cmd)
  {
    if op != [] {
      var n := |op| - 1;
      CommandsIn(g, s, op[..n], j);
      BelowProduct(op[n].ppa.die, g.dies, op[n].ppa.plane, g.planes);
    }
  }

  lemma {:induction false} OfShorter(xs: seq<Issued>, k: nat)
    ensures |Of(xs, k)| <= |xs|
    decreases |xs|
  {
    if xs != [] { OfShorter(xs[1..], k); }
  }

  /** An operation of at most 128 pages never puts more than 256 commands into a FIFO, far from the 1023 at which its
      full flag could be missed. */
  lemma FifoFits(g: Geometry, s: Ctrl, evs: seq<Event>, op: seq<PageOp>, k: nat)
    requires Good(s) && AtRest(s) && NonePending(s) && AllEnabled(s, evs) && k < |s.chans| && |op| <= MAX_OP_PAGES
    requires Pushed(evs) <= ProgramCommands(g, op) || Pushed(evs) <= ReadCommands(g, op)
    ensures |Run(s, evs).chans[k].fifo| <= 256
  {
    hide Good, AtRest, AllEnabled, Run, TailHalf, NonePending;
    RunTail(s, evs, k);
    RestTail(s, k);
    OfShorter(Pushed(evs), k);
    OperationWeight(g, op);
  }

  lemma {:induction false} ReadsLeaveNothing(g: Geometry, op: seq<PageOp>, k: nat)
    ensures TailOf(Of(ReadCommands(g, op), k), Whole) == Whole
  {
    var cmds := ReadCommands(g, op);
    forall i | 0 <= i < |cmds| ensures cmds[i].cmd.ReadNand? || cmds[i].cmd.WriteDma? { NoReadIsProgram(g, op, i); }
    PlainTail(cmds, k);
  }

  lemma QuietTail(ch: Channel)
    requires ChannelSound(ch) && Quiet(ch) && TailHalf(ch) == Whole
    ensures forall c: nat | c < |ch.chips| :: !ch.chips[c].pending
  {
  }

  /** A finished operation leaves the controllers ready for the next one: no chip is in the middle of a program. */
  lemma OperationLeavesReady(g: Geometry, s: Ctrl, evs: seq<Event>, op: seq<PageOp>)
    requires Good(s) && AtRest(s) && Fits(g, s) && NonePending(s) && AllEnabled(s, evs)
    requires Pushed(evs) == ProgramCommands(g, op) || Pushed(evs) == ReadCommands(g, op)
    requires AtRest(Run(s, evs))
    ensures Good(Run(s, evs)) && Fits(g, Run(s, evs)) && NonePending(Run(s, evs))
  {
    hide AllEnabled, Run, TailHalf, ChannelSound;
    var e := Run(s, evs);
    forall k | 0 <= k < |e.chans|
      ensures |e.chans[k].chips| == |s.chans[k].chips| && forall c: nat | c < |e.chans[k].chips| ::
        !e.chans[k].chips[c].pending
    {
      RunTail(s, evs, k);
      RestTail(s, k);
      ProgramsLeaveNothing(g, op, k);
      ReadsLeaveNothing(g, op, k);
      assert ChannelSound(e.chans[k]) && Quiet(e.chans[k]);
      QuietTail(e.chans[k]);
    }
  }
}
