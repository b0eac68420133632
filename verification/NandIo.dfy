/** Flash operations as the translation layer issues them: a list of at most 128 page operations, each
    pairing a flash page with a page-sized slot of RAM. NandController proves that the controller carries
    such a list out as if one by one in order; this module is that one-by-one meaning. */
module NandIo {
  import opened Geometry

  const MAX_OP_PAGES := 128

  datatype PageOp = PageOp(ppa: Ppa, slot: nat)

  // add_read_op_page and add_program_op_page: a full operation refuses the page.
  function AddOpPage(op: seq<PageOp>, ppa: Ppa, slot: nat): seq<PageOp> {
    if |op| >= MAX_OP_PAGES then op else op + [PageOp(ppa, slot)]
  }

  predicate SlotsIn(op: seq<PageOp>, n: nat) { forall i | 0 <= i < |op| :: op[i].slot < n }

  predicate PagesIn<P>(op: seq<PageOp>, flash: map<Ppa, P>) { forall i | 0 <= i < |op| :: op[i].ppa in flash }

  function Program<P>(flash: map<Ppa, P>, op: seq<PageOp>, ram: seq<P>): map<Ppa, P>
    requires SlotsIn(op, |ram|)
  {
    if op == [] then flash
    else
      var n := |op| - 1;
      Program(flash, op[..n], ram)[op[n].ppa := ram[op[n].slot]]
  }

  function ReadInto<P>(flash: map<Ppa, P>, op: seq<PageOp>, ram: seq<P>): (r: seq<P>)
    requires SlotsIn(op, |ram|) && PagesIn(op, flash)
    ensures |r| == |ram|
  {
    if op == [] then ram
    else
      var n := |op| - 1;
      ReadInto(flash, op[..n], ram)[op[n].slot := flash[op[n].ppa]]
  }

  predicate DistinctPages(op: seq<PageOp>) { forall i, j | 0 <= i < j < |op| :: op[i].ppa != op[j].ppa }

  predicate DistinctSlots(op: seq<PageOp>) { forall i, j | 0 <= i < j < |op| :: op[i].slot != op[j].slot }

  /** Programming distinct pages gives each its own slot's content and leaves the rest of the flash. */
  lemma {:induction false} ProgramAt<P>(flash: map<Ppa, P>, op: seq<PageOp>, ram: seq<P>)
    requires SlotsIn(op, |ram|) && DistinctPages(op)
    ensures forall i | 0 <= i < |op| ::
              op[i].ppa in Program(flash, op, ram) && Program(flash, op, ram)[op[i].ppa] == ram[op[i].slot]
    ensures forall p | p in flash && (forall i | 0 <= i < |op| :: op[i].ppa != p) ::
              p in Program(flash, op, ram) && Program(flash, op, ram)[p] == flash[p]
  {
    if op != [] {
      var n := |op| - 1;
      ProgramAt(flash, op[..n], ram);
      assert forall i | 0 <= i < n :: op[..n][i] == op[i];
    }
  }

  lemma {:induction false} ProgramKeys<P>(flash: map<Ppa, P>, op: seq<PageOp>, ram: seq<P>)
    requires SlotsIn(op, |ram|) && PagesIn(op, flash)
    ensures Program(flash, op, ram).Keys == flash.Keys
  {
    if op != [] {
      ProgramKeys(flash, op[..|op| - 1], ram);
    }
  }

  /** Reading into distinct slots fills each with its own page and leaves the rest of the RAM. */
  lemma {:induction false} ReadIntoAt<P>(flash: map<Ppa, P>, op: seq<PageOp>, ram: seq<P>)
    requires SlotsIn(op, |ram|) && PagesIn(op, flash) && DistinctSlots(op)
    ensures forall i | 0 <= i < |op| :: ReadInto(flash, op, ram)[op[i].slot] == flash[op[i].ppa]
    ensures forall s | 0 <= s < |ram| && (forall i | 0 <= i < |op| :: op[i].slot != s) ::
              ReadInto(flash, op, ram)[s] == ram[s]
  {
    if op != [] {
      var n := |op| - 1;
      ReadIntoAt(flash, op[..n], ram);
      assert forall i | 0 <= i < n :: op[..n][i] == op[i];
    }
  }

  class Nand<P(0)> {
    var flash: map<Ppa, P>

    constructor (flash: map<Ppa, P>)
      ensures this.flash == flash
    {
      this.flash := flash;
    }

    method SyncProgram(op: seq<PageOp>, ram: array<P>)
      requires SlotsIn(op, ram.Length)
      modifies this
      ensures flash == Program(old(flash), op, ram[..])
    {
      for i := 0 to |op|
        invariant flash == Program(old(flash), op[..i], ram[..])
      {
        assert op[..i + 1][..i] == op[..i];
        flash := flash[op[i].ppa := ram[op[i].slot]];
      }
      assert op[..|op|] == op;
    }

    method SyncRead(op: seq<PageOp>, ram: array<P>)
      requires SlotsIn(op, ram.Length) && PagesIn(op, flash)
      modifies ram
      ensures ram[..] == ReadInto(flash, op, old(ram[..]))
    {
      for i := 0 to |op|
        invariant ram[..] == ReadInto(flash, op[..i], old(ram[..]))
      {
        assert op[..i + 1][..i] == op[..i];
        ram[op[i].slot] := flash[op[i].ppa];
      }
      assert op[..|op|] == op;
    }
  }
}
