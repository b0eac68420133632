/** The low-level driver over the controllers: a flash operation split into commands for the channels, pushed while
    completion events arrive, has the one-by-one meaning that NandIo gives it. */
module NandDriver {
  import opened Geometry
  import opened NandIo
  import opened NandController
  import opened NandSerialisation
  import opened NandProgress

  // ---- Addresses ---------------------------------------------------------------------------

  function LocationOf(g: Geometry, p: Ppa): Location { Location(p.chn, ChipIndex(g, p), Row(p.block, p.page)) }

  lemma LocationInjective(g: Geometry, p: Ppa, q: Ppa)
    requires g.Valid() && InRange(g, p) && InRange(g, q)
    ensures LocationOf(g, p) == LocationOf(g, q) <==> p == q
  {
    DivMod(p.die, p.plane, g.planes);
    DivMod(q.die, q.plane, g.planes);
  }

  /** The flash image seen through physical page addresses, and the first n pages of RAM. */
  ghost function FlashOf(g: Geometry, image: map<Location, Page>): map<Ppa, Page> {
    map p | p in AllPages(g) :: At(image, LocationOf(g, p))
  }

  function RamOf(ram: map<nat, Page>, n: nat): seq<Page> { seq(n, i requires 0 <= i => At(ram, i)) }

  // ---- Commands of an operation -------------------------------------------------------------

  function ReadPair(g: Geometry, op: PageOp): seq<Issued> {
    [Issued(op.ppa.chn, ReadNand(ChipIndex(g, op.ppa), Row(op.ppa.block, op.ppa.page))),
     Issued(op.ppa.chn, WriteDma(ChipIndex(g, op.ppa), op.slot))]
  }

  function ProgramPair(g: Geometry, op: PageOp): seq<Issued> {
    [Issued(op.ppa.chn, ProgramNand(ChipIndex(g, op.ppa), Row(op.ppa.block, op.ppa.page))),
     Issued(op.ppa.chn, ReadDma(ChipIndex(g, op.ppa), op.slot))]
  }

  function ReadCommands(g: Geometry, op: seq<PageOp>): seq<Issued> {
    if op == [] then [] else ReadCommands(g, op[..|op| - 1]) + ReadPair(g, op[|op| - 1])
  }

  function ProgramCommands(g: Geometry, op: seq<PageOp>): seq<Issued> {
    if op == [] then [] else ProgramCommands(g, op[..|op| - 1]) + ProgramPair(g, op[|op| - 1])
  }

  predicate OpIn(g: Geometry, op: seq<PageOp>) { forall i | 0 <= i < |op| :: InRange(g, op[i].ppa) }

  // Every chip of the geometry exists and none is in the middle of a program.
  ghost predicate Ready(g: Geometry, m: Micro) {
    && (forall p | InRange(g, p) :: ChipId(p.chn, ChipIndex(g, p)) in m.cells)
    && (forall id | id in m.cells :: !m.cells[id].pending)
  }

  lemma ExecPair(m: Micro, xs: seq<Issued>, a: Issued, b: Issued)
    requires AllIn(m.cells, xs) && ChipId(a.k, a.cmd.chip) in m.cells && ChipId(b.k, b.cmd.chip) in m.cells
    ensures AllIn(m.cells, xs + [a, b])
    ensures ExecAll(m, xs + [a, b]) == Exec(Exec(ExecAll(m, xs), a), b)
  {
    assert xs + [a, b] == (xs + [a]) + [b];
    ExecAllLast(m, xs, a);
    ExecAllLast(m, xs + [a], b);
  }

  lemma ProgramPairMeans(g: Geometry, m: Micro, op: PageOp)
    requires g.Valid() && Ready(g, m) && InRange(g, op.ppa)
    ensures var xs := ProgramPair(g, op);
            var m' := Exec(Exec(m, xs[0]), xs[1]);
            && Ready(g, m') && m'.mem.ram == m.mem.ram
            && FlashOf(g, m'.mem.image) == FlashOf(g, m.mem.image)[op.ppa := At(m.mem.ram, op.slot)]
  {
    var xs := ProgramPair(g, op);
    var m' := Exec(Exec(m, xs[0]), xs[1]);
    forall p | InRange(g, p)
      ensures FlashOf(g, m'.mem.image)[p] == FlashOf(g, m.mem.image)[op.ppa := At(m.mem.ram, op.slot)][p]
    {
      LocationInjective(g, p, op.ppa);
    }
  }

  lemma ReadPairMeans(g: Geometry, m: Micro, op: PageOp, n: nat)
    requires g.Valid() && Ready(g, m) && InRange(g, op.ppa) && op.slot < n
    ensures var xs := ReadPair(g, op);
            var m' := Exec(Exec(m, xs[0]), xs[1]);
            && Ready(g, m') && m'.mem.image == m.mem.image
            && RamOf(m'.mem.ram, n) == RamOf(m.mem.ram, n)[op.slot := FlashOf(g, m.mem.image)[op.ppa]]
  {
  }

  /** Run one by one, the commands of an operation have the meaning NandIo gives it. */
  lemma {:induction false} ProgramCommandsMean(g: Geometry, m: Micro, op: seq<PageOp>, n: nat)
    requires g.Valid() && Ready(g, m) && OpIn(g, op) && SlotsIn(op, n)
    ensures AllIn(m.cells, ProgramCommands(g, op))
    ensures var m' := ExecAll(m, ProgramCommands(g, op));
            && Ready(g, m') && m'.mem.ram == m.mem.ram
            && FlashOf(g, m'.mem.image) == Program(FlashOf(g, m.mem.image), op, RamOf(m.mem.ram, n))
  {
    hide Exec, Ready, FlashOf;
    if op != [] {
      var last := op[|op| - 1];
      ProgramCommandsMean(g, m, op[..|op| - 1], n);
      var xs := ProgramPair(g, last);
      ReadyChip(g, m, last.ppa);
      ExecPair(m, ProgramCommands(g, op[..|op| - 1]), xs[0], xs[1]);
      ProgramPairMeans(g, ExecAll(m, ProgramCommands(g, op[..|op| - 1])), last);
    }
  }

  lemma ReadyChip(g: Geometry, m: Micro, p: Ppa)
    requires Ready(g, m) && InRange(g, p)
    ensures ChipId(p.chn, ChipIndex(g, p)) in m.cells
  {
  }

  lemma {:induction false} ReadCommandsMean(g: Geometry, m: Micro, op: seq<PageOp>, n: nat)
    requires g.Valid() && Ready(g, m) && OpIn(g, op) && SlotsIn(op, n)
    ensures AllIn(m.cells, ReadCommands(g, op)) && PagesIn(op, FlashOf(g, m.mem.image))
    ensures var m' := ExecAll(m, ReadCommands(g, op));
            && Ready(g, m') && m'.mem.image == m.mem.image
            && RamOf(m'.mem.ram, n) == ReadInto(FlashOf(g, m.mem.image), op, RamOf(m.mem.ram, n))
  {
    hide Exec, Ready;
    if op != [] {
      var last := op[|op| - 1];
      ReadCommandsMean(g, m, op[..|op| - 1], n);
      var xs := ReadPair(g, last);
      ReadyChip(g, m, last.ppa);
      ExecPair(m, ReadCommands(g, op[..|op| - 1]), xs[0], xs[1]);
      ReadPairMeans(g, ExecAll(m, ReadCommands(g, op[..|op| - 1])), last, n);
    }
  }

  // ---- The driver with the controllers -------------------------------------------------------

  // The controllers fit the geometry: a channel per channel, a chip per plane.
  predicate Fits(g: Geometry, s: Ctrl) {
    |s.chans| == g.channels && forall k | 0 <= k < |s.chans| :: |s.chans[k].chips| == g.dies * g.planes
  }

  ghost predicate NonePending(s: Ctrl) {
    forall k, c | 0 <= k < |s.chans| && 0 <= c < |s.chans[k].chips| :: !s.chans[k].chips[c].pending
  }

  /** Controllers just switched on: one engine for each pair of channels with an arbitrary toggle, all chips idle. */
  ghost predicate SwitchedOn(g: Geometry, s: Ctrl) {
    && Formed(s) && Fits(g, s)
    && (forall e | 0 <= e < |s.engines| :: s.engines[e].current == Idle)
    && (forall k | 0 <= k < |s.chans| :: Fresh(s.chans[k]))
  }

  predicate Fresh(ch: Channel) {
    && ch.fifo == [] && ch.active == 0 && !ch.wait && !ch.readDma && !ch.writeDma
    && forall c | 0 <= c < |ch.chips| :: !ch.chips[c].busy && !ch.chips[c].pending
  }

  lemma {:induction false} NoneBusy(chips: seq<Chip>)
    requires forall c | 0 <= c < |chips| :: !chips[c].busy
    ensures BusyCount(chips) == 0
  {
    if chips != [] { NoneBusy(chips[1..]); }
  }

  /** Such controllers are in order, at rest and ready for an operation. */
  lemma SwitchedOnGood(g: Geometry, s: Ctrl)
    requires SwitchedOn(g, s)
    ensures Good(s) && AtRest(s) && NonePending(s)
  {
    forall k | 0 <= k < |s.chans| ensures ChannelSound(s.chans[k]) && Settled(s.chans[k]) && Quiet(s.chans[k]) {
      assert Fresh(s.chans[k]);
      NoneBusy(s.chans[k].chips);
      HalfUnique(s.chans[k], Whole);
    }
    forall e | 0 <= e < |s.engines| ensures EngineSound(s, e) {
      assert Fresh(s.chans[2 * e]) && Fresh(s.chans[2 * e + 1]);
    }
    forall k, c | 0 <= k < |s.chans| && 0 <= c < |s.chans[k].chips| ensures !s.chans[k].chips[c].pending {
      assert Fresh(s.chans[k]);
    }
  }

  lemma FitsReady(g: Geometry, s: Ctrl)
    requires Fits(g, s) && NonePending(s)
    ensures Ready(g, MicroOf(s))
  {
    forall p | InRange(g, p) ensures ChipId(p.chn, ChipIndex(g, p)) in MicroOf(s).cells {
      BelowProduct(p.die, g.dies, p.plane, g.planes);
    }
  }

  lemma {:induction false} ProgramsOnlyRead(g: Geometry, op: seq<PageOp>)
    ensures forall x | x in ProgramCommands(g, op) :: !x.cmd.WriteDma?
    ensures ConflictFree(ProgramCommands(g, op))
  {
    if op != [] { ProgramsOnlyRead(g, op[..|op| - 1]); }
  }

  /** __do_sync_flash_program: however the pushes and the completion events interleave, once every operation count
      reads 0 the flash has been programmed with the operation, page by page, and RAM is unchanged. */
  lemma SyncFlashProgram(g: Geometry, s: Ctrl, evs: seq<Event>, op: seq<PageOp>, n: nat)
    requires g.Valid() && Good(s) && AtRest(s) && Fits(g, s) && NonePending(s)
    requires OpIn(g, op) && SlotsIn(op, n)
    requires AllEnabled(s, evs) && Pushed(evs) == ProgramCommands(g, op) && AtRest(Run(s, evs))
    ensures FlashOf(g, Run(s, evs).mem.image) == Program(FlashOf(g, s.mem.image), op, RamOf(s.mem.ram, n))
    ensures Run(s, evs).mem.ram == s.mem.ram
  {
    FitsReady(g, s);
    hide Good, AtRest, Run, AllEnabled, Ready, Exec, MicroOf, Fits, NonePending;
    ProgramsOnlyRead(g, op);
    Serialisable(s, evs);
    ProgramCommandsMean(g, MicroOf(s), op, n);
    MemOf(s);
    MemOf(Run(s, evs));
  }

  lemma {:induction false} ReadSlots(g: Geometry, op: seq<PageOp>)
    ensures forall x | x in ReadCommands(g, op) :: !x.cmd.ReadDma?
    ensures forall x | x in ReadCommands(g, op) && x.cmd.WriteDma? ::
              exists i :: 0 <= i < |op| && op[i].slot == x.cmd.ram && op[i].ppa.chn == x.k
  {
    if op != [] {
      var n := |op| - 1;
      ReadSlots(g, op[..n]);
      forall x | x in ReadCommands(g, op) && x.cmd.WriteDma?
        ensures exists i :: 0 <= i < |op| && op[i].slot == x.cmd.ram && op[i].ppa.chn == x.k
      {
        if x in ReadCommands(g, op[..n]) {
          var i :| 0 <= i < n && op[..n][i].slot == x.cmd.ram && op[..n][i].ppa.chn == x.k;
          assert op[i].slot == x.cmd.ram;
        } else {
          assert op[n].slot == x.cmd.ram;
        }
      }
    }
  }

  lemma ReadsConflictFree(g: Geometry, op: seq<PageOp>)
    requires DistinctSlots(op)
    ensures ConflictFree(ReadCommands(g, op))
  {
    ReadSlots(g, op);
    var all := ReadCommands(g, op);
    forall x, y | x in all && y in all && x.k != y.k ensures Independent(x, y) {
      if x.cmd.WriteDma? && y.cmd.WriteDma? {
        var i :| 0 <= i < |op| && op[i].slot == x.cmd.ram && op[i].ppa.chn == x.k;
        var j :| 0 <= j < |op| && op[j].slot == y.cmd.ram && op[j].ppa.chn == y.k;
        assert i != j;
      }
    }
  }

  /** __do_sync_flash_read: into distinct slots of RAM, the operation reads page by page and leaves the flash. */
  lemma SyncFlashRead(g: Geometry, s: Ctrl, evs: seq<Event>, op: seq<PageOp>, n: nat)
    requires g.Valid() && Good(s) && AtRest(s) && Fits(g, s) && NonePending(s)
    requires OpIn(g, op) && SlotsIn(op, n) && DistinctSlots(op)
    requires AllEnabled(s, evs) && Pushed(evs) == ReadCommands(g, op) && AtRest(Run(s, evs))
    ensures PagesIn(op, FlashOf(g, s.mem.image))
    ensures RamOf(Run(s, evs).mem.ram, n) == ReadInto(FlashOf(g, s.mem.image), op, RamOf(s.mem.ram, n))
    ensures Run(s, evs).mem.image == s.mem.image
  {
    FitsReady(g, s);
    hide Good, AtRest, Run, AllEnabled, Ready, Exec, MicroOf, Fits, NonePending;
    ReadsConflictFree(g, op);
    Serialisable(s, evs);
    ReadCommandsMean(g, MicroOf(s), op, n);
    MemOf(s);
    MemOf(Run(s, evs));
  }

  /** An operation of n pages comes to rest after exactly 2 n completion events. */
  lemma OperationEvents(g: Geometry, s: Ctrl, evs: seq<Event>, op: seq<PageOp>)
    requires Good(s) && AtRest(s) && AllEnabled(s, evs)
    requires Pushed(evs) == ProgramCommands(g, op) || Pushed(evs) == ReadCommands(g, op)
    ensures AtRest(Run(s, evs)) <==> Completions(evs) == 2 * |op|
  {
    hide Good, AtRest, Run, AllEnabled;
    RunWork(s, evs);
    AtRestIffNoWork(s);
    WeightOfPushed(evs);
    OperationWeight(g, op);
  }

  function WeightOf(xs: seq<Issued>): nat {
    if xs == [] then 0 else WeightOf(xs[..|xs| - 1]) + Weight(xs[|xs| - 1].cmd)
  }

  lemma {:induction false} WeightOfFirst(x: Issued, xs: seq<Issued>)
    ensures WeightOf([x] + xs) == Weight(x.cmd) + WeightOf(xs)
  {
    if xs == [] {
      assert [x] + xs == [x];
      assert WeightOf([x]) == WeightOf([x][..0]) + Weight(x.cmd);
    } else {
      assert ([x] + xs)[..|xs|] == [x] + xs[..|xs| - 1];
      WeightOfFirst(x, xs[..|xs| - 1]);
    }
  }

  lemma {:induction false} WeightOfPushed(evs: seq<Event>)
    ensures PushedWeight(evs) == WeightOf(Pushed(evs))
    decreases |evs|
  {
    if evs != [] {
      WeightOfPushed(evs[1..]);
      if evs[0].PushCmd? {
        WeightOfFirst(Issued(evs[0].k, evs[0].cmd), Pushed(evs[1..]));
      } else {
        assert Pushed(evs) == Pushed(evs[1..]);
      }
    }
  }

  lemma {:induction false} OperationWeight(g: Geometry, op: seq<PageOp>)
    ensures WeightOf(ProgramCommands(g, op)) == 2 * |op| && WeightOf(ReadCommands(g, op)) == 2 * |op|
    ensures |ProgramCommands(g, op)| == 2 * |op| && |ReadCommands(g, op)| == 2 * |op|
  {
    if op != [] {
      var n := |op| - 1;
      OperationWeight(g, op[..n]);
      WeightOfPair(ProgramCommands(g, op[..n]), ProgramPair(g, op[n])[0], ProgramPair(g, op[n])[1]);
      WeightOfPair(ReadCommands(g, op[..n]), ReadPair(g, op[n])[0], ReadPair(g, op[n])[1]);
    }
  }

  lemma WeightOfPair(xs: seq<Issued>, a: Issued, b: Issued)
    ensures WeightOf(xs + [a, b]) == WeightOf(xs) + Weight(a.cmd) + Weight(b.cmd)
  {
    assert (xs + [a, b])[..|xs| + 1] == xs + [a];
    assert (xs + [a])[..|xs|] == xs;
  }
}
