/** The NAND controllers never stall: as long as anything is queued or active some completion event is due, each
    completion event does one unit of work, and the firmware's poll loop ends only when everything has taken
    effect. */
module NandProgress {
  import opened NandController
  import opened NandSerialisation

  // ---- Work left ------------------------------------------------------------------------

  // Completion events a queued command still gives rise to.
  function Weight(cmd: Command): nat {
    match cmd
    case ReadNand(_, _) => 1
    case ProgramNand(_, _) => 0
    case WriteDma(_, _) => 1
    case ReadDma(_, _) => 2
  }

  function Weights(cmds: seq<Command>): nat
    decreases |cmds|
  {
    if cmds == [] then 0 else Weight(cmds[0]) + Weights(cmds[1..])
  }

  function TransferWork(ch: Channel): nat { if !ch.wait then 0 else if ch.readDma then 2 else 1 }

  function ChannelWork(ch: Channel): nat { Weights(ch.fifo) + TransferWork(ch) + BusyCount(ch.chips) }

  function WorkOf(chans: seq<Channel>): nat
    decreases |chans|
  {
    if chans == [] then 0 else ChannelWork(chans[0]) + WorkOf(chans[1..])
  }

  function Work(s: Ctrl): nat { WorkOf(s.chans) }

  lemma {:induction false} WorkUpdate(chans: seq<Channel>, k: nat, ch: Channel)
    requires k < |chans|
    ensures WorkOf(chans[k := ch]) + ChannelWork(chans[k]) == WorkOf(chans) + ChannelWork(ch)
    decreases |chans|
  {
    if k == 0 {
      assert chans[k := ch][1..] == chans[1..];
    } else {
      assert chans[k := ch][1..] == chans[1..][k - 1 := ch];
      WorkUpdate(chans[1..], k - 1, ch);
    }
  }

  lemma {:induction false} WeightsLast(cmds: seq<Command>, cmd: Command)
    ensures Weights(cmds + [cmd]) == Weights(cmds) + Weight(cmd)
    decreases |cmds|
  {
    if cmds != [] {
      assert (cmds + [cmd])[1..] == cmds[1..] + [cmd];
      WeightsLast(cmds[1..], cmd);
    }
  }

  lemma IssueKeepsWork(ch: Channel, k: nat, mem: Memory)
    requires ChannelSound(ch) && CanIssue(ch)
    ensures ChannelWork(Issue(ch, k, ch.fifo[0], mem).(fifo := ch.fifo[1..])) == ChannelWork(ch)
  {
    var cmd := ch.fifo[0];
    BusyUpdate(ch.chips, cmd.chip, Issue(ch, k, cmd, mem).chips[cmd.chip]);
  }

  lemma {:induction false} PumpKeepsWork(s: Ctrl, k: nat)
    requires Sound(s) && k < |s.chans|
    ensures Work(Pump(s, k)) == Work(s)
    decreases |s.chans[k].fifo|
  {
    if CanIssue(s.chans[k]) {
      IssueFrontKeeps(s, k);
      IssueKeepsWork(s.chans[k], k, s.mem);
      WorkUpdate(s.chans, k, IssueFront(s, k).chans[k]);
      PumpKeepsWork(IssueFront(s, k), k);
    }
  }

  lemma EndTransferWork(s: Ctrl, k: nat)
    requires k < |s.chans| && ChannelSound(s.chans[k]) && s.chans[k].wait
    requires s.chans[k].dmaChip < |s.chans[k].chips| && 0 < s.chans[k].active
    ensures k < |EndTransfer(s, k).chans|
    ensures ChannelWork(EndTransfer(s, k).chans[k]) + 1 == ChannelWork(s.chans[k])
  {
    var ch := s.chans[k];
    BusyUpdate(ch.chips, ch.dmaChip, EndTransfer(s, k).chans[k].chips[ch.dmaChip]);
  }

  /** Every completion event takes one unit of work off; every command pushed adds its weight. */
  lemma DmaDoneWork(s: Ctrl, e: nat)
    requires Good(s) && Enabled(s, DmaDone(e))
    ensures Work(Step(s, DmaDone(e))) + 1 == Work(s)
  {
    DmaCompleteKeeps(s, e);
    var k := s.engines[e].current.channel;
    TransferSound(s, e, k);
    hide EndTransfer, HandOver, Pump, ChannelSound, ChannelWork, BusyCount;
    EndTransferWork(s, k);
    WorkUpdate(s.chans, k, EndTransfer(s, k).chans[k]);
    PumpKeepsWork(HandOver(EndTransfer(s, k), e), k);
  }

  lemma OpDoneWork(s: Ctrl, k: nat, c: nat)
    requires Good(s) && Enabled(s, OpDone(k, c))
    ensures Work(Step(s, OpDone(k, c))) + 1 == Work(s)
  {
    OpCompleteKeeps(s, k, c);
    OpEndedKeeps(s, k, c);
    hide Pump, Sound, ChannelSound;
    BusyUpdate(s.chans[k].chips, c, OpEnded(s, k, c).chans[k].chips[c]);
    WorkUpdate(s.chans, k, OpEnded(s, k, c).chans[k]);
    PumpKeepsWork(OpEnded(s, k, c), k);
  }

  lemma PushWork(s: Ctrl, k: nat, cmd: Command)
    requires Good(s) && Enabled(s, PushCmd(k, cmd))
    ensures Work(Step(s, PushCmd(k, cmd))) == Work(s) + Weight(cmd)
  {
    PushKeeps(s, k, cmd);
    QueuedKeeps(s, k, cmd);
    hide Pump, Sound, ChannelSound;
    WeightsLast(s.chans[k].fifo, cmd);
    WorkUpdate(s.chans, k, Queued(s, k, cmd).chans[k]);
    PumpKeepsWork(Queued(s, k, cmd), k);
  }

  // ---- No stalling ------------------------------------------------------------------------

  // The completion event a channel waits for.
  function DueEvent(s: Ctrl, k: nat): Event
    requires k < |s.chans|
  {
    var ch := s.chans[k];
    if ch.wait then DmaDone(k / 2)
    else if ch.fifo != [] then OpDone(k, ch.fifo[0].chip)
    else OpDone(k, FirstBusy(ch.chips))
  }

  function FirstBusy(chips: seq<Chip>): nat
    decreases |chips|
  {
    if chips == [] || chips[0].busy then 0 else 1 + FirstBusy(chips[1..])
  }

  lemma {:induction false} FirstBusyIs(chips: seq<Chip>)
    requires 0 < BusyCount(chips)
    ensures FirstBusy(chips) < |chips| && chips[FirstBusy(chips)].busy
    decreases |chips|
  {
    if !chips[0].busy { FirstBusyIs(chips[1..]); }
  }

  /** A channel that is not quiet has a completion event outstanding, and that event looks at its FIFO again. */
  lemma BusyChannelHasEvent(s: Ctrl, k: nat)
    requires Good(s) && k < |s.chans| && !Quiet(s.chans[k])
    ensures Enabled(s, DueEvent(s, k))
  {
    var ch := s.chans[k];
    assert ChannelSound(ch) && Settled(ch);
    assert EngineSound(s, k / 2);
    if !ch.wait && ch.fifo == [] { FirstBusyIs(ch.chips); }
  }

  lemma QuietIffNoWork(ch: Channel)
    requires ChannelSound(ch) && Settled(ch)
    ensures Quiet(ch) <==> ChannelWork(ch) == 0
  {
    if !ch.wait && ch.fifo != [] { BusyPositive(ch.chips, ch.fifo[0].chip); }
  }

  lemma {:induction false} NoWorkAnywhere(chans: seq<Channel>)
    ensures WorkOf(chans) == 0 <==> forall k | 0 <= k < |chans| :: ChannelWork(chans[k]) == 0
    decreases |chans|
  {
    if chans != [] {
      NoWorkAnywhere(chans[1..]);
      if forall k | 0 <= k < |chans| :: ChannelWork(chans[k]) == 0 {
        forall k | 0 <= k < |chans[1..]| ensures ChannelWork(chans[1..][k]) == 0 {
          assert chans[1..][k] == chans[k + 1];
        }
      }
      if WorkOf(chans) == 0 {
        forall k | 0 <= k < |chans| ensures ChannelWork(chans[k]) == 0 {
          if k > 0 { assert chans[k] == chans[1..][k - 1]; }
        }
      }
    }
  }

  lemma AtRestIffNoWork(s: Ctrl)
    requires Good(s)
    ensures AtRest(s) <==> Work(s) == 0
  {
    NoWorkAnywhere(s.chans);
    forall k | 0 <= k < |s.chans| ensures Quiet(s.chans[k]) <==> ChannelWork(s.chans[k]) == 0 {
      assert ChannelSound(s.chans[k]) && Settled(s.chans[k]);
      QuietIffNoWork(s.chans[k]);
    }
  }

  function Completions(evs: seq<Event>): nat
    decreases |evs|
  {
    if evs == [] then 0 else (if evs[0].PushCmd? then 0 else 1) + Completions(evs[1..])
  }

  function PushedWeight(evs: seq<Event>): nat
    decreases |evs|
  {
    if evs == [] then 0 else (if evs[0].PushCmd? then Weight(evs[0].cmd) else 0) + PushedWeight(evs[1..])
  }

  lemma StepWork(s: Ctrl, ev: Event)
    requires Good(s) && Enabled(s, ev)
    ensures Work(Step(s, ev)) + (if ev.PushCmd? then 0 else 1) == Work(s) + (if ev.PushCmd? then Weight(ev.cmd) else 0)
  {
    hide *;
    match ev
    case DmaDone(e) => DmaDoneWork(s, e);
    case OpDone(k, c) => OpDoneWork(s, k, c);
    case PushCmd(k, cmd) => PushWork(s, k, cmd);
  }

  /** Work is conserved over any run, so it takes exactly as many completion events to come to rest as the work
      there was plus the weight of what was pushed: two per page operation. */
  lemma {:induction false} RunWork(s: Ctrl, evs: seq<Event>)
    requires Good(s) && AllEnabled(s, evs)
    ensures Work(Run(s, evs)) + Completions(evs) == Work(s) + PushedWeight(evs)
    ensures AtRest(Run(s, evs)) <==> Completions(evs) == Work(s) + PushedWeight(evs)
    decreases |evs|
  {
    hide Work, Step, Enabled, Good, AtRest, Weight;
    if evs != [] {
      StepWork(s, evs[0]);
      RunWork(Step(s, evs[0]), evs[1..]);
    }
    AtRestIffNoWork(Run(s, evs));
  }

  /** As long as the controllers are not at rest, some completion event can happen. */
  lemma NeverStalls(s: Ctrl)
    requires Good(s) && !AtRest(s)
    ensures exists ev: Event :: !ev.PushCmd? && Enabled(s, ev)
  {
    var k :| 0 <= k < |s.chans| && !Quiet(s.chans[k]);
    BusyChannelHasEvent(s, k);
  }

  lemma TransferClears(s: Ctrl, j: nat, k: nat)
    requires k < |s.chans| && j < |s.chans| && j != k && s.chans[j].dmaChip < |s.chans[j].chips|
    requires 0 < s.chans[j].active
    ensures |EndTransfer(s, j).chans| == |s.chans| && !EndTransfer(s, j).chans[j].wait
    ensures EndTransfer(s, j).chans[k] == s.chans[k]
  {
  }

  lemma HandOverGives(s: Ctrl, e: nat, j: nat, k: nat)
    requires Formed(s) && e < |s.engines| && j / 2 == e == k / 2 && j != k && j < |s.chans| && k < |s.chans|
    requires s.chans[k].wait && !s.chans[j].wait
    ensures e < |HandOver(s, e).engines| && HandOver(s, e).engines[e].current == Busy(k)
  {
  }

  /** A channel waiting while the other channel of its pair uses the engine gets it next, whatever the toggle. */
  lemma WaitingChannelIsNext(s: Ctrl, e: nat, k: nat)
    requires Good(s) && e < |s.engines| && k < |s.chans| && k / 2 == e && s.chans[k].wait
    requires s.engines[e].current.Busy? && s.engines[e].current.channel != k
    ensures Step(s, DmaDone(e)).engines[e].current == Busy(k)
  {
    hide ChannelSound, EndTransfer, HandOver, Pump, AllSettled;
    DmaCompleteKeeps(s, e);
    var j := s.engines[e].current.channel;
    TransferSound(s, e, j);
    assert EngineSound(s, e);
    TransferClears(s, j, k);
    HandOverGives(EndTransfer(s, j), e, j, k);
    PumpLeavesEngine(HandOver(EndTransfer(s, j), e), j, e);
    CompletionIs(s, e);
  }

  lemma CompletionIs(s: Ctrl, e: nat)
    requires Good(s) && e < |s.engines| && s.engines[e].current.Busy?
    requires var j := s.engines[e].current.channel;
             && j < |s.chans| && s.chans[j].dmaChip < |s.chans[j].chips| && 0 < s.chans[j].active
             && Formed(EndTransfer(s, j))
    ensures Step(s, DmaDone(e)) ==
            Pump(HandOver(EndTransfer(s, s.engines[e].current.channel), e), s.engines[e].current.channel)
  {
    hide ChannelSound, EndTransfer, Pump, AllSettled;
    DmaCompleteKeeps(s, e);
  }

  lemma {:induction false} PumpLeavesEngine(s: Ctrl, k: nat, e: nat)
    requires Sound(s) && k < |s.chans| && e < |s.engines| && s.engines[e].current.Busy?
    ensures |Pump(s, k).engines| == |s.engines| && Pump(s, k).engines[e].current == s.engines[e].current
    decreases |s.chans[k].fifo|
  {
    if CanIssue(s.chans[k]) {
      IssueFrontKeeps(s, k);
      PumpLeavesEngine(IssueFront(s, k), k, e);
    }
  }

  // ---- The firmware's poll loop ---------------------------------------------------------------

  lemma QuietStays(s: Ctrl, ev: Event, k: nat)
    requires Good(s) && Enabled(s, ev) && !ev.PushCmd? && k < |s.chans| && Quiet(s.chans[k])
    ensures Quiet(Step(s, ev).chans[k])
  {
    assert ChannelSound(s.chans[k]);
    match ev
    case DmaDone(e) =>
      DmaCompleteKeeps(s, e);
      var j := s.engines[e].current.channel;
      TransferSound(s, e, j);
      PumpKeeps(HandOver(EndTransfer(s, j), e), j);
    case OpDone(j, c) =>
      OpCompleteKeeps(s, j, c);
      OpEndedKeeps(s, j, c);
      PumpKeeps(OpEnded(s, j, c), j);
  }

  predicate NoPushes(evs: seq<Event>) { forall i | 0 <= i < |evs| :: !evs[i].PushCmd? }

  lemma {:induction false} QuietStaysOver(s: Ctrl, evs: seq<Event>, k: nat)
    requires Good(s) && AllEnabled(s, evs) && NoPushes(evs) && k < |s.chans| && Quiet(s.chans[k])
    ensures Quiet(Run(s, evs).chans[k])
    decreases |evs|
  {
    hide Good, Enabled, Step, Quiet;
    if evs != [] {
      QuietStays(s, evs[0], k);
      QuietStaysOver(Step(s, evs[0]), evs[1..], k);
    }
  }

  // One pass of the poll loop: it reads the operation count of one channel after another, with any number of
  // completion events before each reading, and finds every count 0.
  ghost predicate PollSeesZero(s: Ctrl, gaps: seq<seq<Event>>, k: nat)
    requires Good(s)
    decreases |gaps|
  {
    if gaps == [] then true
    else
      && NoPushes(gaps[0]) && AllEnabled(s, gaps[0])
      && k < |s.chans| && Quiet(Run(s, gaps[0]).chans[k])
      && PollSeesZero(Run(s, gaps[0]), gaps[1..], k + 1)
  }

  ghost function AfterPoll(s: Ctrl, gaps: seq<seq<Event>>, k: nat): (s': Ctrl)
    requires Good(s) && PollSeesZero(s, gaps, k)
    ensures Good(s') && |s'.chans| == |s.chans|
    decreases |gaps|
  {
    if gaps == [] then s else AfterPoll(Run(s, gaps[0]), gaps[1..], k + 1)
  }

  lemma {:induction false} PolledStaysQuiet(s: Ctrl, gaps: seq<seq<Event>>, k: nat, j: nat)
    requires Good(s) && PollSeesZero(s, gaps, k) && j < |s.chans|
    requires Quiet(s.chans[j]) || k <= j < k + |gaps|
    ensures Quiet(AfterPoll(s, gaps, k).chans[j])
    decreases |gaps|
  {
    hide Good, Quiet, AllEnabled, Run;
    if gaps != [] {
      if Quiet(s.chans[j]) { QuietStaysOver(s, gaps[0], j); }
      PolledStaysQuiet(Run(s, gaps[0]), gaps[1..], k + 1, j);
    }
  }

  /** The poll loop ends only at rest: counts that were 0 one after another are all 0 together. */
  lemma PollEndsAtRest(s: Ctrl, gaps: seq<seq<Event>>)
    requires Good(s) && |gaps| == |s.chans| && PollSeesZero(s, gaps, 0)
    ensures AtRest(AfterPoll(s, gaps, 0))
  {
    forall j | 0 <= j < |s.chans| ensures Quiet(AfterPoll(s, gaps, 0).chans[j]) {
      PolledStaysQuiet(s, gaps, 0, j);
    }
  }
}
