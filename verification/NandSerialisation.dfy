/** Whatever the order of completion events, the NAND controllers leave the memory that running the commands one
    by one in issue order would leave, and they always come to rest. */
module NandSerialisation {
  import opened NandController

  // ---- One-by-one meaning of the commands ------------------------------------------------

  datatype ChipId = ChipId(channel: nat, chip: nat)

  datatype Cell = Cell(reg: Page, row: Row, pending: bool)

  datatype Micro = Micro(cells: imap<ChipId, Cell>, mem: Memory)

  datatype Issued = Issued(k: nat, cmd: Command)

  ghost function MicroOf(s: Ctrl): Micro {
    Micro(imap id: ChipId | id.channel < |s.chans| && id.chip < |s.chans[id.channel].chips| ::
            CellOf(s.chans[id.channel].chips[id.chip]),
          s.mem)
  }

  function CellOf(chip: Chip): Cell { Cell(chip.reg, chip.row, chip.pending) }

  ghost function Exec(m: Micro, x: Issued): (m': Micro)
    requires ChipId(x.k, x.cmd.chip) in m.cells
    ensures m'.cells.Keys == m.cells.Keys
  {
    var id := ChipId(x.k, x.cmd.chip);
    var cell := m.cells[id];
    match x.cmd
    case ReadNand(c, row) =>
      m.(cells := m.cells[id := cell.(reg := At(m.mem.image, Location(x.k, c, row)), row := row)])
    case ProgramNand(c, row) =>
      m.(cells := m.cells[id := cell.(row := row, pending := true)])
    case WriteDma(c, r) =>
      m.(mem := m.mem.(ram := m.mem.ram[r := cell.reg]))
    case ReadDma(c, r) =>
      var data := At(m.mem.ram, r);
      if cell.pending then
        Micro(m.cells[id := cell.(reg := data, pending := false)],
              m.mem.(image := m.mem.image[Location(x.k, c, cell.row) := data]))
      else m.(cells := m.cells[id := cell.(reg := data)])
  }

  ghost predicate AllIn(cells: imap<ChipId, Cell>, xs: seq<Issued>) {
    forall i | 0 <= i < |xs| :: ChipId(xs[i].k, xs[i].cmd.chip) in cells
  }

  ghost function ExecAll(m: Micro, xs: seq<Issued>): (m': Micro)
    requires AllIn(m.cells, xs)
    ensures m'.cells.Keys == m.cells.Keys
    decreases |xs|
  {
    if xs == [] then m else ExecAll(Exec(m, xs[0]), xs[1..])
  }

  lemma {:induction false} ExecAllLast(m: Micro, xs: seq<Issued>, x: Issued)
    requires AllIn(m.cells, xs + [x])
    ensures AllIn(m.cells, xs) && ChipId(x.k, x.cmd.chip) in m.cells
    ensures ExecAll(m, xs + [x]) == Exec(ExecAll(m, xs), x)
    decreases |xs|
  {
    assert (xs + [x])[|xs|] == x;
    assert forall i | 0 <= i < |xs| :: (xs + [x])[i] == xs[i];
    if xs != [] {
      assert (xs + [x])[1..] == xs[1..] + [x];
      ExecAllLast(Exec(m, xs[0]), xs[1..], x);
    }
  }

  // ---- Independence ------------------------------------------------------------------------

  predicate IsDma(cmd: Command) { cmd.WriteDma? || cmd.ReadDma? }

  // Commands on different channels conflict only over a RAM page that one of them writes.
  predicate Independent(a: Issued, b: Issued) {
    a.k != b.k && (IsDma(a.cmd) && IsDma(b.cmd) && a.cmd.ram == b.cmd.ram ==> a.cmd.ReadDma? && b.cmd.ReadDma?)
  }

  // What a command does to its chip, to the RAM and to the flash image.
  ghost function NextCell(m: Micro, x: Issued): Cell
    requires ChipId(x.k, x.cmd.chip) in m.cells
  {
    var cell := m.cells[ChipId(x.k, x.cmd.chip)];
    match x.cmd
    case ReadNand(c, row) => cell.(reg := At(m.mem.image, Location(x.k, c, row)), row := row)
    case ProgramNand(c, row) => cell.(row := row, pending := true)
    case WriteDma(_, _) => cell
    case ReadDma(_, r) => cell.(reg := At(m.mem.ram, r), pending := false)
  }

  ghost function NextRam(m: Micro, x: Issued): map<nat, Page>
    requires ChipId(x.k, x.cmd.chip) in m.cells
  {
    if x.cmd.WriteDma? then m.mem.ram[x.cmd.ram := m.cells[ChipId(x.k, x.cmd.chip)].reg] else m.mem.ram
  }

  ghost function NextImage(m: Micro, x: Issued): map<Location, Page>
    requires ChipId(x.k, x.cmd.chip) in m.cells
  {
    var cell := m.cells[ChipId(x.k, x.cmd.chip)];
    if x.cmd.ReadDma? && cell.pending
    then m.mem.image[Location(x.k, x.cmd.chip, cell.row) := At(m.mem.ram, x.cmd.ram)] else m.mem.image
  }

  lemma ExecIs(m: Micro, x: Issued)
    requires ChipId(x.k, x.cmd.chip) in m.cells
    ensures Exec(m, x) ==
      Micro(m.cells[ChipId(x.k, x.cmd.chip) := NextCell(m, x)], Memory(NextImage(m, x), NextRam(m, x)))
  {
    if x.cmd.WriteDma? { assert m.cells[ChipId(x.k, x.cmd.chip) := NextCell(m, x)] == m.cells; }
  }

  // A command on one channel leaves alone what an independent command on another channel works on.
  lemma LeftAlone(m: Micro, a: Issued, b: Issued)
    requires ChipId(a.k, a.cmd.chip) in m.cells && ChipId(b.k, b.cmd.chip) in m.cells && Independent(a, b)
    ensures ChipId(b.k, b.cmd.chip) in Exec(m, a).cells
    ensures Exec(m, a).cells[ChipId(b.k, b.cmd.chip)] == m.cells[ChipId(b.k, b.cmd.chip)]
    ensures b.cmd.ReadDma? ==> At(Exec(m, a).mem.ram, b.cmd.ram) == At(m.mem.ram, b.cmd.ram)
    ensures NextCell(Exec(m, a), b) == NextCell(m, b)
  {
    hide Exec;
    ExecIs(m, a);
  }

  lemma Commute(m: Micro, a: Issued, b: Issued)
    requires AllIn(m.cells, [a, b]) && Independent(a, b)
    ensures ChipId(a.k, a.cmd.chip) in m.cells && ChipId(b.k, b.cmd.chip) in m.cells
    ensures Exec(Exec(m, a), b) == Exec(Exec(m, b), a)
  {
    hide Exec, NextCell, NextRam, NextImage;
    assert [a, b][0] == a && [a, b][1] == b;
    LeftAlone(m, a, b);
    LeftAlone(m, b, a);
    ExecIs(m, a);
    ExecIs(m, b);
    ExecIs(Exec(m, a), b);
    ExecIs(Exec(m, b), a);
    CommuteRam(m, a, b);
    CommuteImage(m, a, b);
    var ia, ib := ChipId(a.k, a.cmd.chip), ChipId(b.k, b.cmd.chip);
    assert m.cells[ia := NextCell(m, a)][ib := NextCell(m, b)] == m.cells[ib := NextCell(m, b)][ia := NextCell(m, a)];
  }

  lemma CommuteRam(m: Micro, a: Issued, b: Issued)
    requires ChipId(a.k, a.cmd.chip) in m.cells && ChipId(b.k, b.cmd.chip) in m.cells && Independent(a, b)
    ensures ChipId(a.k, a.cmd.chip) in Exec(m, b).cells && ChipId(b.k, b.cmd.chip) in Exec(m, a).cells
    ensures NextRam(Exec(m, a), b) == NextRam(Exec(m, b), a)
  {
    hide Exec, NextCell, NextImage;
    LeftAlone(m, a, b);
    LeftAlone(m, b, a);
    ExecIs(m, a);
    ExecIs(m, b);
  }

  lemma CommuteImage(m: Micro, a: Issued, b: Issued)
    requires ChipId(a.k, a.cmd.chip) in m.cells && ChipId(b.k, b.cmd.chip) in m.cells && Independent(a, b)
    ensures ChipId(a.k, a.cmd.chip) in Exec(m, b).cells && ChipId(b.k, b.cmd.chip) in Exec(m, a).cells
    ensures NextImage(Exec(m, a), b) == NextImage(Exec(m, b), a)
  {
    hide Exec, NextCell, NextRam;
    LeftAlone(m, a, b);
    LeftAlone(m, b, a);
    ExecIs(m, a);
    ExecIs(m, b);
  }

  predicate AllIndependent(xs: seq<Issued>) {
    forall i, j | 0 <= i < j < |xs| && xs[i].k != xs[j].k :: Independent(xs[i], xs[j])
  }

  // ---- What is still to be done, in issue order ----------------------------------------------

  function Of(xs: seq<Issued>, k: nat): seq<Command>
    decreases |xs|
  {
    if xs == [] then []
    else if xs[0].k == k then [xs[0].cmd] + Of(xs[1..], k)
    else Of(xs[1..], k)
  }

  function DropFirst(xs: seq<Issued>, k: nat): seq<Issued>
    decreases |xs|
  {
    if xs == [] then []
    else if xs[0].k == k then xs[1..]
    else [xs[0]] + DropFirst(xs[1..], k)
  }

  predicate Within(xs: seq<Issued>, ys: seq<Issued>) { forall x | x in xs :: x in ys }

  lemma {:induction false} DropFirstWithin(xs: seq<Issued>, k: nat)
    ensures Within(DropFirst(xs, k), xs)
    decreases |xs|
  {
    if xs != [] && xs[0].k != k { DropFirstWithin(xs[1..], k); }
  }

  lemma {:induction false} OfLast(xs: seq<Issued>, x: Issued, k: nat)
    ensures Of(xs + [x], k) == if x.k == k then Of(xs, k) + [x.cmd] else Of(xs, k)
    decreases |xs|
  {
    if xs != [] {
      assert (xs + [x])[1..] == xs[1..] + [x];
      OfLast(xs[1..], x, k);
    }
  }

  lemma {:induction false} OfDropFirst(xs: seq<Issued>, k: nat, j: nat)
    requires Of(xs, k) != []
    ensures Of(DropFirst(xs, k), j) == if j == k then Of(xs, k)[1..] else Of(xs, j)
    decreases |xs|
  {
    if xs[0].k != k {
      OfDropFirst(xs[1..], k, j);
      assert ([xs[0]] + DropFirst(xs[1..], k))[1..] == DropFirst(xs[1..], k);
    }
  }

  lemma {:induction false} DropFirstSubset(xs: seq<Issued>, k: nat, cells: imap<ChipId, Cell>)
    requires AllIn(cells, xs) && AllIndependent(xs)
    ensures AllIn(cells, DropFirst(xs, k)) && AllIndependent(DropFirst(xs, k))
    ensures forall x | x in DropFirst(xs, k) :: x in xs
    decreases |xs|
  {
    if xs != [] && xs[0].k != k {
      DropFirstSubset(xs[1..], k, cells);
      var ys := DropFirst(xs[1..], k);
      assert DropFirst(xs, k) == [xs[0]] + ys;
      forall j | 0 <= j < |ys| && ys[j].k != xs[0].k ensures Independent(xs[0], ys[j]) {
        assert ys[j] in xs[1..];
      }
    }
  }

  /** The first outstanding command of any channel may be run before everything issued earlier on the others. */
  lemma {:induction false} Promote(m: Micro, xs: seq<Issued>, k: nat)
    requires AllIn(m.cells, xs) && AllIndependent(xs) && Of(xs, k) != []
    ensures ChipId(k, Of(xs, k)[0].chip) in m.cells
    ensures AllIn(m.cells, DropFirst(xs, k))
    ensures ExecAll(m, xs) == ExecAll(Exec(m, Issued(k, Of(xs, k)[0])), DropFirst(xs, k))
    decreases |xs|
  {
    DropFirstSubset(xs, k, m.cells);
    if xs[0].k != k {
      var x := Issued(k, Of(xs, k)[0]);
      Promote(Exec(m, xs[0]), xs[1..], k);
      FirstIsLater(xs[1..], k);
      assert xs[1..][FirstIndex(xs[1..], k)] == x;
      assert Independent(xs[0], x);
      Commute(m, xs[0], x);
      assert DropFirst(xs, k)[1..] == DropFirst(xs[1..], k);
    } else {
      assert xs[0] == Issued(k, Of(xs, k)[0]);
    }
  }

  function FirstIndex(xs: seq<Issued>, k: nat): nat
    decreases |xs|
  {
    if xs == [] || xs[0].k == k then 0 else 1 + FirstIndex(xs[1..], k)
  }

  lemma {:induction false} FirstIsLater(xs: seq<Issued>, k: nat)
    requires Of(xs, k) != []
    ensures FirstIndex(xs, k) < |xs| && xs[FirstIndex(xs, k)] == Issued(k, Of(xs, k)[0])
    decreases |xs|
  {
    if xs[0].k != k { FirstIsLater(xs[1..], k); }
  }

  // ---- The machine follows ---------------------------------------------------------------------

  // The transfer under way followed by the FIFO.
  function Outstanding(ch: Channel): seq<Command> {
    (if ch.readDma then [ReadDma(ch.dmaChip, ch.ramPtr)]
     else if ch.writeDma then [WriteDma(ch.dmaChip, ch.ramPtr)]
     else [])
    + ch.fifo
  }

  /** `todo` lists all outstanding commands in issue order, and finishing them one by one leads to `goal`. */
  ghost predicate Follows(s: Ctrl, todo: seq<Issued>, goal: Micro) {
    && Sound(s)
    && (forall k | 0 <= k < |s.chans| :: Of(todo, k) == Outstanding(s.chans[k]))
    && AllIn(MicroOf(s).cells, todo) && AllIndependent(todo)
    && ExecAll(MicroOf(s), todo) == goal
  }

  // Changing one chip changes one cell; changing none changes none.
  lemma CellsUpdate(s: Ctrl, s': Ctrl, k: nat, c: nat)
    requires k < |s.chans| == |s'.chans| && c < |s.chans[k].chips|
    requires forall j | 0 <= j < |s.chans| && j != k :: s'.chans[j].chips == s.chans[j].chips
    requires |s'.chans[k].chips| == |s.chans[k].chips|
    requires s'.chans[k].chips == s.chans[k].chips[c := s'.chans[k].chips[c]]
    ensures ChipId(k, c) in MicroOf(s).cells && MicroOf(s).cells[ChipId(k, c)] == CellOf(s.chans[k].chips[c])
    ensures MicroOf(s').cells == MicroOf(s).cells[ChipId(k, c) := CellOf(s'.chans[k].chips[c])]
    ensures CellOf(s'.chans[k].chips[c]) == CellOf(s.chans[k].chips[c]) ==> MicroOf(s').cells == MicroOf(s).cells
  {
  }

  lemma IssueFrontMicro(s: Ctrl, k: nat)
    requires Sound(s) && k < |s.chans| && CanIssue(s.chans[k])
    ensures var cmd := s.chans[k].fifo[0];
            && (IsDma(cmd) ==> MicroOf(IssueFront(s, k)) == MicroOf(s))
            && (!IsDma(cmd) ==>
                  ChipId(k, cmd.chip) in MicroOf(s).cells
                    && MicroOf(IssueFront(s, k)) == Exec(MicroOf(s), Issued(k, cmd)))
  {
    IssueFrontKeeps(s, k);
    hide IssueFront, Sound, MicroOf;
    CellsUpdate(s, IssueFront(s, k), k, s.chans[k].fifo[0].chip);
    assert MicroOf(s).mem == s.mem && MicroOf(IssueFront(s, k)).mem == s.mem by { MemOf(s); MemOf(IssueFront(s, k)); }
  }

  lemma MemOf(s: Ctrl)
    ensures MicroOf(s).mem == s.mem
  {
  }

  lemma IssueFrontOutstanding(s: Ctrl, k: nat)
    requires Sound(s) && k < |s.chans| && CanIssue(s.chans[k])
    ensures k < |IssueFront(s, k).chans|
    ensures Outstanding(s.chans[k]) == s.chans[k].fifo
    ensures Outstanding(IssueFront(s, k).chans[k]) ==
              if IsDma(s.chans[k].fifo[0]) then s.chans[k].fifo else s.chans[k].fifo[1..]
  {
    hide IssueFront, ChannelSound, HalfOf, PendingIs, Stream, BusyCount;
    IssueFrontKeeps(s, k);
    assert ChannelSound(s.chans[k]);
    NotWaiting(s.chans[k]);
  }

  lemma NotWaiting(ch: Channel)
    requires ChannelSound(ch) && !ch.wait
    ensures !ch.readDma && !ch.writeDma
  {
  }

  lemma EndTransferMicro(s: Ctrl, k: nat)
    requires k < |s.chans| && ChannelSound(s.chans[k]) && s.chans[k].wait
    requires s.chans[k].dmaChip < |s.chans[k].chips| && 0 < s.chans[k].active
    ensures Outstanding(s.chans[k]) != []
    ensures ChipId(k, Outstanding(s.chans[k])[0].chip) in MicroOf(s).cells
    ensures MicroOf(EndTransfer(s, k)) == Exec(MicroOf(s), Issued(k, Outstanding(s.chans[k])[0]))
    ensures k < |EndTransfer(s, k).chans| && Outstanding(EndTransfer(s, k).chans[k]) == Outstanding(s.chans[k])[1..]
  {
    hide MicroOf;
    MemOf(s);
    MemOf(EndTransfer(s, k));
    CellsUpdate(s, EndTransfer(s, k), k, s.chans[k].dmaChip);
  }

  // The history after channel k has run its first outstanding command.
  lemma FollowsExec(s: Ctrl, s': Ctrl, todo: seq<Issued>, goal: Micro, k: nat)
    requires Follows(s, todo, goal) && k < |s.chans| && Outstanding(s.chans[k]) != []
    requires Sound(s') && |s'.chans| == |s.chans| && Outstanding(s'.chans[k]) == Outstanding(s.chans[k])[1..]
    requires forall j | 0 <= j < |s.chans| && j != k :: Outstanding(s'.chans[j]) == Outstanding(s.chans[j])
    requires ChipId(k, Outstanding(s.chans[k])[0].chip) in MicroOf(s).cells
    requires MicroOf(s') == Exec(MicroOf(s), Issued(k, Outstanding(s.chans[k])[0]))
    ensures Follows(s', DropFirst(todo, k), goal)
  {
    hide Sound, MicroOf, Exec, ExecAll, Outstanding, DropFirst, AllIn, AllIndependent, Of;
    Promote(MicroOf(s), todo, k);
    DropFirstSubset(todo, k, MicroOf(s).cells);
    assert AllIn(MicroOf(s').cells, DropFirst(todo, k)) by {
      AllInKeys(MicroOf(s).cells, MicroOf(s').cells, DropFirst(todo, k));
    }
    forall j | 0 <= j < |s'.chans| ensures Of(DropFirst(todo, k), j) == Outstanding(s'.chans[j]) {
      OfDropFirst(todo, k, j);
    }
  }

  lemma AllInKeys(cells: imap<ChipId, Cell>, cells': imap<ChipId, Cell>, xs: seq<Issued>)
    requires AllIn(cells, xs) && cells.Keys == cells'.Keys
    ensures AllIn(cells', xs)
  {
    forall i | 0 <= i < |xs| ensures ChipId(xs[i].k, xs[i].cmd.chip) in cells' {
      assert ChipId(xs[i].k, xs[i].cmd.chip) in cells.Keys;
    }
  }

  lemma FollowsAt(s: Ctrl, todo: seq<Issued>, goal: Micro, k: nat)
    requires Follows(s, todo, goal) && k < |s.chans|
    ensures Sound(s) && Formed(s) && (CanIssue(s.chans[k]) ==> s.chans[k].fifo != [])
  {
  }

  lemma FollowsSame(s: Ctrl, s': Ctrl, todo: seq<Issued>, goal: Micro)
    requires Follows(s, todo, goal) && Sound(s') && |s'.chans| == |s.chans| && MicroOf(s') == MicroOf(s)
    requires forall j | 0 <= j < |s.chans| :: Outstanding(s'.chans[j]) == Outstanding(s.chans[j])
    ensures Follows(s', todo, goal)
  {
    hide Sound, MicroOf, Outstanding;
  }

  lemma IssueFollows(s: Ctrl, todo: seq<Issued>, goal: Micro, k: nat) returns (todo': seq<Issued>)
    requires Follows(s, todo, goal) && k < |s.chans| && CanIssue(s.chans[k])
    ensures Follows(IssueFront(s, k), todo', goal)
    ensures Within(todo', todo)
  {
    hide *;
    FollowsAt(s, todo, goal, k);
    var s' := IssueFront(s, k);
    IssueFrontKeeps(s, k);
    IssueFrontMicro(s, k);
    IssueFrontOutstanding(s, k);
    if IsDma(s.chans[k].fifo[0]) {
      FollowsSame(s, s', todo, goal);
      todo' := todo;
    } else {
      FollowsExec(s, s', todo, goal, k);
      DropFirstWithin(todo, k);
      todo' := DropFirst(todo, k);
    }
    WithinSelf(todo);
  }

  lemma WithinSelf(xs: seq<Issued>)
    ensures Within(xs, xs)
  {
  }

  lemma {:induction false} PumpFollows(s: Ctrl, todo: seq<Issued>, goal: Micro, k: nat) returns (todo': seq<Issued>)
    requires Follows(s, todo, goal) && k < |s.chans|
    ensures Follows(Pump(s, k), todo', goal)
    ensures Within(todo', todo)
    decreases |s.chans[k].fifo|
  {
    hide Follows, Formed, Sound, IssueFront, Issue, CanIssue;
    FollowsAt(s, todo, goal, k);
    if CanIssue(s.chans[k]) {
      IssueFrontKeeps(s, k);
      IssueSameFifo(s.chans[k], k, s.mem);
      var mid := IssueFollows(s, todo, goal, k);
      todo' := PumpFollows(IssueFront(s, k), mid, goal, k);
    } else {
      todo' := todo;
    }
  }

  lemma IssueSameFifo(ch: Channel, k: nat, mem: Memory)
    requires CanIssue(ch)
    ensures Issue(ch, k, ch.fifo[0], mem).fifo == ch.fifo
  {
  }

  // ---- Events --------------------------------------------------------------------------------

  datatype Event = PushCmd(k: nat, cmd: Command) | DmaDone(e: nat) | OpDone(k: nat, c: nat)

  ghost predicate Enabled(s: Ctrl, ev: Event) {
    match ev
    case PushCmd(k, cmd) => MayPush(s, k, cmd)
    case DmaDone(e) => e < |s.engines| && s.engines[e].current.Busy?
    case OpDone(k, c) => k < |s.chans| && c < |s.chans[k].chips| && s.chans[k].chips[c].busy
  }

  ghost predicate Good(s: Ctrl) { Sound(s) && AllSettled(s) }

  ghost function Step(s: Ctrl, ev: Event): (s': Ctrl)
    requires Good(s) && Enabled(s, ev)
    ensures Good(s') && |s'.chans| == |s.chans|
  {
    match ev
    case PushCmd(k, cmd) => PushKeeps(s, k, cmd); Push(s, k, cmd)
    case DmaDone(e) => DmaCompleteKeeps(s, e); DmaComplete(s, e)
    case OpDone(k, c) => OpCompleteKeeps(s, k, c); OpComplete(s, k, c)
  }

  lemma TransferFollows(s: Ctrl, todo: seq<Issued>, goal: Micro, e: nat, k: nat)
    requires Follows(s, todo, goal) && e < |s.engines| && s.engines[e].current == Busy(k) && CanComplete(s, e)
    ensures Formed(EndTransfer(s, k)) && |EndTransfer(s, k).engines| == |s.engines|
    ensures Follows(HandOver(EndTransfer(s, k), e), DropFirst(todo, k), goal)
  {
    hide *;
    TransferringAt(s, todo, goal, e, k);
    TransferSound(s, e, k);
    EndTransferMicro(s, k);
    SameMicro(EndTransfer(s, k), HandOver(EndTransfer(s, k), e));
    FollowsExec(s, HandOver(EndTransfer(s, k), e), todo, goal, k);
  }

  lemma TransferringAt(s: Ctrl, todo: seq<Issued>, goal: Micro, e: nat, k: nat)
    requires Follows(s, todo, goal) && e < |s.engines| && s.engines[e].current == Busy(k) && CanComplete(s, e)
    ensures Sound(s) && Formed(s) && k < |s.chans| && ChannelSound(s.chans[k])
    ensures s.chans[k].wait && 0 < s.chans[k].active && s.chans[k].dmaChip < |s.chans[k].chips|
  {
    assert EngineSound(s, e);
  }

  lemma SameMicro(s: Ctrl, s': Ctrl)
    requires s.chans == s'.chans && s.mem == s'.mem
    ensures MicroOf(s) == MicroOf(s')
  {
  }

  lemma DmaDoneFollows(s: Ctrl, todo: seq<Issued>, goal: Micro, e: nat) returns (todo': seq<Issued>)
    requires Good(s) && Follows(s, todo, goal) && Enabled(s, DmaDone(e))
    ensures Follows(Step(s, DmaDone(e)), todo', goal)
    ensures Within(todo', todo)
  {
    DmaCompleteKeeps(s, e);
    hide Follows, Sound, Pump, EndTransfer;
    var k := s.engines[e].current.channel;
    TransferFollows(s, todo, goal, e, k);
    DropFirstWithin(todo, k);
    todo' := PumpFollows(HandOver(EndTransfer(s, k), e), DropFirst(todo, k), goal, k);
  }

  lemma OpEndedIs(s: Ctrl, k: nat, c: nat)
    requires k < |s.chans| && c < |s.chans[k].chips| && 0 < s.chans[k].active
    ensures var s1 := OpEnded(s, k, c);
            && |s1.chans| == |s.chans| && s1.mem == s.mem
            && (forall j | 0 <= j < |s.chans| && j != k :: s1.chans[j] == s.chans[j])
            && |s1.chans[k].chips| == |s.chans[k].chips|
            && s1.chans[k].chips == s.chans[k].chips[c := s1.chans[k].chips[c]]
            && CellOf(s1.chans[k].chips[c]) == CellOf(s.chans[k].chips[c])
            && Outstanding(s1.chans[k]) == Outstanding(s.chans[k])
  {
  }

  lemma OpEndedFollows(s: Ctrl, todo: seq<Issued>, goal: Micro, k: nat, c: nat)
    requires Follows(s, todo, goal) && k < |s.chans| && c < |s.chans[k].chips| && s.chans[k].chips[c].busy
    requires 0 < s.chans[k].active
    ensures Follows(OpEnded(s, k, c), todo, goal)
  {
    hide OpEnded, MicroOf, CellOf, Outstanding, ChannelSound, ExecAll, Of, AllIn, AllIndependent;
    OpEndedKeeps(s, k, c);
    var s1 := OpEnded(s, k, c);
    OpEndedIs(s, k, c);
    CellsUpdate(s, s1, k, c);
    MemOf(s);
    MemOf(s1);
    FollowsSame(s, s1, todo, goal);
  }

  lemma OpDoneFollows(s: Ctrl, todo: seq<Issued>, goal: Micro, k: nat, c: nat) returns (todo': seq<Issued>)
    requires Good(s) && Follows(s, todo, goal) && Enabled(s, OpDone(k, c))
    ensures Follows(Step(s, OpDone(k, c)), todo', goal)
    ensures Within(todo', todo)
  {
    OpCompleteKeeps(s, k, c);
    hide Follows, Sound, Pump;
    OpEndedFollows(s, todo, goal, k, c);
    todo' := PumpFollows(OpEnded(s, k, c), todo, goal, k);
  }

  lemma PushFollows(s: Ctrl, todo: seq<Issued>, goal: Micro, k: nat, cmd: Command) returns (todo': seq<Issued>)
    requires Good(s) && Follows(s, todo, goal) && Enabled(s, PushCmd(k, cmd))
    requires AllIndependent(todo + [Issued(k, cmd)])
    ensures ChipId(k, cmd.chip) in goal.cells
    ensures Follows(Step(s, PushCmd(k, cmd)), todo', Exec(goal, Issued(k, cmd)))
    ensures Within(todo', todo + [Issued(k, cmd)])
  {
    PushKeeps(s, k, cmd);
    var s1 := Queued(s, k, cmd);
    QueuedKeeps(s, k, cmd);
    QueuedFollows(s, todo, goal, k, cmd);
    hide Follows, Sound, Pump, Exec;
    if s.chans[k].fifo != [] {
      todo' := todo + [Issued(k, cmd)];
    } else {
      todo' := PumpFollows(s1, todo + [Issued(k, cmd)], Exec(goal, Issued(k, cmd)), k);
    }
  }

  lemma QueuedFollows(s: Ctrl, todo: seq<Issued>, goal: Micro, k: nat, cmd: Command)
    requires Follows(s, todo, goal) && CommandIn(s, k, cmd) && Sound(Queued(s, k, cmd))
    requires AllIndependent(todo + [Issued(k, cmd)])
    ensures ChipId(k, cmd.chip) in goal.cells
    ensures Follows(Queued(s, k, cmd), todo + [Issued(k, cmd)], Exec(goal, Issued(k, cmd)))
  {
    var s1, x := Queued(s, k, cmd), Issued(k, cmd);
    CellsUpdate(s, s1, k, cmd.chip);
    MemOf(s);
    MemOf(s1);
    QueuedOutstanding(s, todo, k, cmd);
    hide Sound, Exec, MicroOf, Queued, Outstanding, Of;
    AllInLast(MicroOf(s).cells, todo, x);
    ExecAllLast(MicroOf(s), todo, x);
  }

  lemma AllInLast(cells: imap<ChipId, Cell>, xs: seq<Issued>, x: Issued)
    requires AllIn(cells, xs) && ChipId(x.k, x.cmd.chip) in cells
    ensures AllIn(cells, xs + [x])
  {
  }

  lemma QueuedOutstanding(s: Ctrl, todo: seq<Issued>, k: nat, cmd: Command)
    requires k < |s.chans| && forall j | 0 <= j < |s.chans| :: Of(todo, j) == Outstanding(s.chans[j])
    ensures forall j | 0 <= j < |s.chans| :: Of(todo + [Issued(k, cmd)], j) == Outstanding(Queued(s, k, cmd).chans[j])
  {
    forall j | 0 <= j < |s.chans| ensures Of(todo + [Issued(k, cmd)], j) == Outstanding(Queued(s, k, cmd).chans[j]) {
      OfLast(todo, Issued(k, cmd), j);
    }
  }

  // The controller just after a transfer, with the engine handed over, before the FIFO is looked at.
  lemma TransferSound(s: Ctrl, e: nat, k: nat)
    requires Sound(s) && e < |s.engines| && s.engines[e].current == Busy(k)
    ensures k < |s.chans| && s.chans[k].wait && 0 < s.chans[k].active && s.chans[k].dmaChip < |s.chans[k].chips|
    ensures Formed(EndTransfer(s, k)) && EndTransfer(s, k).engines == s.engines
    ensures Sound(HandOver(EndTransfer(s, k), e)) && HandOver(EndTransfer(s, k), e).chans == EndTransfer(s, k).chans
    ensures HandOver(EndTransfer(s, k), e).mem == EndTransfer(s, k).mem
    ensures EndTransfer(s, k).chans == s.chans[k := EndTransfer(s, k).chans[k]]
  {
    assert EngineSound(s, e);
    assert ChannelSound(s.chans[k]);
    EndTransferKeepsChannel(s, k);
    var s1 := EndTransfer(s, k);
    forall j | 0 <= j < |s1.chans| ensures ChannelSound(s1.chans[j]) {}
    forall f | 0 <= f < |s1.engines| && f != e ensures EngineSound(s1, f) {
      assert EngineSound(s, f);
    }
    HandOverKeeps(s1, e);
  }

  // ---- Whole runs ----------------------------------------------------------------------------

  ghost predicate AllEnabled(s: Ctrl, evs: seq<Event>)
    requires Good(s)
    decreases |evs|
  {
    evs == [] || (Enabled(s, evs[0]) && AllEnabled(Step(s, evs[0]), evs[1..]))
  }

  ghost function Run(s: Ctrl, evs: seq<Event>): (s': Ctrl)
    requires Good(s) && AllEnabled(s, evs)
    ensures Good(s') && |s'.chans| == |s.chans|
    decreases |evs|
  {
    if evs == [] then s else Run(Step(s, evs[0]), evs[1..])
  }

  // The commands the firmware pushed, in issue order.
  function Pushed(evs: seq<Event>): seq<Issued>
    decreases |evs|
  {
    if evs == [] then []
    else (if evs[0].PushCmd? then [Issued(evs[0].k, evs[0].cmd)] else []) + Pushed(evs[1..])
  }

  // A channel with nothing queued and nothing active: its operation count reads 0.
  predicate Quiet(ch: Channel) { ch.fifo == [] && ch.active == 0 }

  predicate AtRest(s: Ctrl) { forall k | 0 <= k < |s.chans| :: Quiet(s.chans[k]) }

  lemma QuietDone(ch: Channel)
    requires ChannelSound(ch) && Quiet(ch)
    ensures Outstanding(ch) == []
  {
  }

  lemma NothingOf(xs: seq<Issued>, n: nat)
    requires (forall i | 0 <= i < |xs| :: xs[i].k < n) && (forall k | 0 <= k < n :: Of(xs, k) == [])
    ensures xs == []
  {
    assert xs != [] ==> Of(xs, xs[0].k) != [];
  }

  lemma AtRestFollows(s: Ctrl, todo: seq<Issued>, goal: Micro)
    requires Follows(s, todo, goal) && AtRest(s)
    ensures MicroOf(s) == goal
  {
    forall k | 0 <= k < |s.chans| ensures Of(todo, k) == [] {
      QuietDone(s.chans[k]);
    }
    forall i | 0 <= i < |todo| ensures todo[i].k < |s.chans| {
      assert ChipId(todo[i].k, todo[i].cmd.chip) in MicroOf(s).cells;
    }
    NothingOf(todo, |s.chans|);
  }

  lemma RestFollows(s: Ctrl)
    requires Sound(s) && AtRest(s)
    ensures Follows(s, [], MicroOf(s))
  {
    forall k | 0 <= k < |s.chans| ensures Of([], k) == Outstanding(s.chans[k]) {
      QuietDone(s.chans[k]);
    }
  }

  /** No two commands on different channels use one RAM page, unless both only read it. */
  predicate ConflictFree(all: seq<Issued>) {
    forall x, y | x in all && y in all && x.k != y.k :: Independent(x, y)
  }

  lemma WithinIndependent(xs: seq<Issued>, all: seq<Issued>)
    requires Within(xs, all) && ConflictFree(all)
    ensures AllIndependent(xs)
  {
  }

  lemma StepFollows(s: Ctrl, todo: seq<Issued>, goal: Micro, ev: Event, all: seq<Issued>)
    returns (todo': seq<Issued>, goal': Micro)
    requires Good(s) && Follows(s, todo, goal) && Enabled(s, ev)
    requires ConflictFree(all) && Within(todo, all) && (ev.PushCmd? ==> Issued(ev.k, ev.cmd) in all)
    ensures Follows(Step(s, ev), todo', goal') && Within(todo', all)
    ensures ev.PushCmd? ==> ChipId(ev.k, ev.cmd.chip) in goal.cells && goal' == Exec(goal, Issued(ev.k, ev.cmd))
    ensures !ev.PushCmd? ==> goal' == goal
  {
    hide Follows, Good, Exec, Enabled, Step;
    match ev
    case DmaDone(e) =>
      todo' := DmaDoneFollows(s, todo, goal, e);
      goal' := goal;
    case OpDone(k, c) =>
      todo' := OpDoneFollows(s, todo, goal, k, c);
      goal' := goal;
    case PushCmd(k, cmd) =>
      WithinIndependent(todo + [Issued(k, cmd)], all);
      todo' := PushFollows(s, todo, goal, k, cmd);
      goal' := Exec(goal, Issued(k, cmd));
  }

  lemma {:induction false} RunFollows(s: Ctrl, evs: seq<Event>, todo: seq<Issued>, goal: Micro, all: seq<Issued>)
    returns (todo': seq<Issued>)
    requires Good(s) && AllEnabled(s, evs) && Follows(s, todo, goal)
    requires ConflictFree(all) && Within(todo, all) && Within(Pushed(evs), all)
    ensures AllIn(goal.cells, Pushed(evs))
    ensures Follows(Run(s, evs), todo', ExecAll(goal, Pushed(evs)))
    decreases |evs|
  {
    hide Follows, Good, Exec, Enabled, Step;
    if evs == [] {
      todo' := todo;
    } else {
      assert Within(Pushed(evs[1..]), all) by {
        forall x | x in Pushed(evs[1..]) ensures x in Pushed(evs) {}
      }
      var todo1, goal1 := StepFollows(s, todo, goal, evs[0], all);
      todo' := RunFollows(Step(s, evs[0]), evs[1..], todo1, goal1, all);
      ExecAllFirst(goal, evs);
    }
  }

  lemma ExecAllFirst(m: Micro, evs: seq<Event>)
    requires evs != [] && (evs[0].PushCmd? ==> ChipId(evs[0].k, evs[0].cmd.chip) in m.cells)
    requires AllIn(m.cells, Pushed(evs[1..]))
    ensures AllIn(m.cells, Pushed(evs))
    ensures ExecAll(m, Pushed(evs)) ==
            if evs[0].PushCmd? then ExecAll(Exec(m, Issued(evs[0].k, evs[0].cmd)), Pushed(evs[1..]))
            else ExecAll(m, Pushed(evs[1..]))
  {
    if evs[0].PushCmd? {
      assert Pushed(evs)[1..] == Pushed(evs[1..]);
    } else {
      assert Pushed(evs) == Pushed(evs[1..]);
    }
  }

  /** The controllers are serialisable: from rest to rest, under every order of completion events and with events
      between any two pushes, the chips, the flash image and the RAM end up as if the commands had been run one by
      one in the order in which they were issued. */
  lemma Serialisable(s: Ctrl, evs: seq<Event>)
    requires Good(s) && AtRest(s) && AllEnabled(s, evs) && AtRest(Run(s, evs))
    requires ConflictFree(Pushed(evs))
    ensures AllIn(MicroOf(s).cells, Pushed(evs))
    ensures MicroOf(Run(s, evs)) == ExecAll(MicroOf(s), Pushed(evs))
  {
    RestFollows(s);
    var todo := RunFollows(s, evs, [], MicroOf(s), Pushed(evs));
    AtRestFollows(Run(s, evs), todo, ExecAll(MicroOf(s), Pushed(evs)));
  }
}
