/** The controllers' event handlers as they run: each changes the channel records and the DMA engines in place, and does
    to them exactly the transition that NandController describes. */
module NandEvents {
  import opened NandController

  class NandCtrls {
    const chans: array<Channel>
    const engines: array<Engine>
    var mem: Memory

    constructor (chans: array<Channel>, engines: array<Engine>, mem: Memory)
      ensures this.chans == chans && this.engines == engines && this.mem == mem
    {
      this.chans, this.engines, this.mem := chans, engines, mem;
    }

    ghost function State(): Ctrl
      reads this, chans, engines
    {
      Ctrl(chans[..], engines[..], mem)
    }

    // run_dma
    method RunDma(e: nat)
      requires Formed(State()) && e < engines.Length
      modifies engines
      ensures State() == NandController.RunDma(old(State()), e)
    {
      var current, toggle := engines[e].current, engines[e].toggle;
      if toggle {
        if chans[2 * e].wait {
          current := Busy(2 * e);
        } else if chans[2 * e + 1].wait {
          current := Busy(2 * e + 1);
        }
      } else {
        if chans[2 * e + 1].wait {
          current := Busy(2 * e + 1);
        } else if chans[2 * e].wait {
          current := Busy(2 * e);
        }
      }
      engines[e] := Engine(current, !toggle);
    }

    method ProcessDma(e: nat)
      requires Formed(State()) && e < engines.Length
      modifies engines
      ensures State() == NandController.ProcessDma(old(State()), e)
    {
      if engines[e].current.Busy? {
        return;
      }
      RunDma(e);
    }

    method WriteCommand(k: nat, c: nat, chip: Chip)
      requires k < chans.Length && c < |chans[k].chips|
      modifies chans
      ensures chans[..] == old(chans[..])[k := SetChip(old(chans[k]), c, chip)]
    {
      chans[k] := chans[k].(chips := chans[k].chips[c := chip]);
    }

    // The commands of process_waiting_room_cmd.
    method IssueCommand(k: nat, cmd: Command)
      requires Formed(State()) && k < chans.Length && cmd.chip < |chans[k].chips|
      modifies chans, engines
      ensures var issued := old(State()).(chans := old(chans[..])[k := Issue(old(chans[k]), k, cmd, mem)]);
              State() == if cmd.WriteDma? || cmd.ReadDma? then NandController.ProcessDma(issued, k / 2) else issued
    {
      hide NandController.ProcessDma, NandController.RunDma, At;
      var chip := chans[k].chips[cmd.chip];
      match cmd {
        case ReadNand(c, row) =>
          WriteCommand(k, c, chip.(row := row, reg := At(mem.image, Location(k, c, row)), busy := true));
          chans[k] := chans[k].(active := chans[k].active + 1);
        case ProgramNand(c, row) =>
          WriteCommand(k, c, chip.(row := row, pending := true));
        case ReadDma(c, r) =>
          chans[k] := chans[k].(active := chans[k].active + 1);
          chans[k] := chans[k].(readDma := true, ramPtr := r, dmaChip := c, wait := true);
          assert chans[..] == old(chans[..])[k := Issue(old(chans[k]), k, cmd, mem)];
          ProcessDma(k / 2);
        case WriteDma(c, r) =>
          chans[k] := chans[k].(active := chans[k].active + 1);
          chans[k] := chans[k].(writeDma := true, ramPtr := r, dmaChip := c, wait := true);
          assert chans[..] == old(chans[..])[k := Issue(old(chans[k]), k, cmd, mem)];
          ProcessDma(k / 2);
      }
    }

    /** process_waiting_room_cmd: issues the commands at the front until one has to wait, calling itself after each. */
    method ProcessWaitingRoom(k: nat)
      requires Formed(State()) && k < chans.Length
      modifies chans, engines
      ensures State() == Pump(old(State()), k)
      decreases |chans[k].fifo|
    {
      if chans[k].wait {
        return;
      }
      if chans[k].fifo == [] {
        return;
      }
      var cmd := chans[k].fifo[0];
      if cmd.chip >= |chans[k].chips| || chans[k].chips[cmd.chip].busy {
        return;
      }
      ghost var s := State();
      IssueCommand(k, cmd);
      ghost var mid := State();
      IssueThenPop(s, k, mid);
      chans[k] := chans[k].(fifo := chans[k].fifo[1..]);
      assert State() == mid.(chans := mid.chans[k := chans[k]]);
      ProcessWaitingRoom(k);
    }

    /** A command from the firmware: it is queued, and the queue is processed if it was empty. */
    method PushCommand(k: nat, cmd: Command)
      requires Formed(State()) && k < chans.Length
      modifies chans, engines
      ensures State() == Push(old(State()), k, cmd)
    {
      var first := chans[k].fifo == [];
      chans[k] := chans[k].(fifo := chans[k].fifo + [cmd]);
      if first {
        ProcessWaitingRoom(k);
      }
    }

    /** dma_complete_call_back keeps the controllers in order. */
    method DmaCompleteCallBack(e: nat)
      requires Sound(State()) && AllSettled(State()) && e < engines.Length && engines[e].current.Busy?
      modifies this, chans, engines
      ensures CanComplete(old(State()), e) && State() == DmaComplete(old(State()), e)
      ensures Sound(State()) && AllSettled(State())
    {
      ghost var s := State();
      DmaCompleteKeeps(s, e);
      hide Sound, AllSettled, Pump, NandController.RunDma;
      var k := engines[e].current.channel;
      FinishTransfer(k);
      engines[e] := engines[e].(current := Idle);
      RunDma(e);
      ProcessWaitingRoom(k);
    }

    // The end of a transfer: data has moved, and a waiting second program cycle is written to the chip.
    method FinishTransfer(k: nat)
      requires k < chans.Length && chans[k].dmaChip < |chans[k].chips| && 0 < chans[k].active
      modifies this, chans
      ensures State() == EndTransfer(old(State()), k)
    {
      var c, r := chans[k].dmaChip, chans[k].ramPtr;
      var chip := chans[k].chips[c];
      var data := At(mem.ram, r);
      chans[k] := chans[k].(active := chans[k].active - 1);
      if chans[k].readDma {
        if chip.pending {
          WriteCommand(k, c, chip.(reg := data, pending := false, busy := true));
          mem := mem.(image := mem.image[Location(k, c, chip.row) := data]);
          chans[k] := chans[k].(readDma := false);
          chans[k] := chans[k].(active := chans[k].active + 1);
        } else {
          WriteCommand(k, c, chip.(reg := data));
        }
      } else if chans[k].writeDma {
        mem := mem.(ram := mem.ram[r := chip.reg]);
        chans[k] := chans[k].(writeDma := false);
      }
      chans[k] := chans[k].(dmaChip := 0, ramPtr := 0, wait := false);
    }

    /** operation_complete_call_back keeps the controllers in order. */
    method OperationCompleteCallBack(k: nat, c: nat)
      requires Sound(State()) && AllSettled(State())
      requires k < chans.Length && c < |chans[k].chips| && chans[k].chips[c].busy
      modifies chans, engines
      ensures 0 < old(chans[k].active) && State() == OpComplete(old(State()), k, c)
      ensures Sound(State()) && AllSettled(State())
    {
      ghost var s := State();
      OpCompleteKeeps(s, k, c);
      hide Sound, AllSettled, Pump;
      chans[k] := chans[k].(active := chans[k].active - 1);
      WriteCommand(k, c, chans[k].chips[c].(busy := false));
      assert State() == OpEnded(s, k, c);
      ProcessWaitingRoom(k);
    }
  }

  // The source pops the command after issuing it; that is the same, since issuing does not look at the FIFO.
  lemma IssueThenPop(s: Ctrl, k: nat, mid: Ctrl)
    requires Formed(s) && k < |s.chans| && CanIssue(s.chans[k])
    requires var issued := s.(chans := s.chans[k := Issue(s.chans[k], k, s.chans[k].fifo[0], s.mem)]);
             var cmd := s.chans[k].fifo[0];
             mid == if cmd.WriteDma? || cmd.ReadDma? then NandController.ProcessDma(issued, k / 2) else issued
    ensures |mid.chans| == |s.chans| && mid.chans[k].fifo == s.chans[k].fifo
    ensures mid.(chans := mid.chans[k := mid.chans[k].(fifo := mid.chans[k].fifo[1..])]) == IssueFront(s, k)
  {
  }
}
