/** Flash geometry and the three ways the firmware and the controller name a flash page:
    a physical page address, the NAND address cycles, and a page number in the flash image. */
module Geometry {

  // Field widths of a physical page address and the limits of global_macro.h.
  const MAX_NUM_CHANNELS := 64
  const MAX_DIES := 256
  const MAX_PLANES := 256
  const MAX_BLOCKS := 0xFFFF
  const MAX_PAGES_PER_BLOCK := 256
  const U32 := 0x1_0000_0000
  const MDTS_PAGES := 16

  datatype Geometry = Geometry(channels: nat, dies: nat, planes: nat, blocks: nat, pages: nat) {
    predicate Valid() {
      && 1 <= channels <= MAX_NUM_CHANNELS
      && 1 <= dies <= MAX_DIES
      && 1 <= planes <= MAX_PLANES
      && 1 <= blocks <= MAX_BLOCKS
      && 1 <= pages <= MAX_PAGES_PER_BLOCK
    }

    function TotalPlanes(): nat { planes * dies * channels }

    function PagesPerPlane(): nat { blocks * pages }

    function PagesPerChannel(): nat { dies * planes * PagesPerPlane() }

    function TotalPages(): nat { channels * PagesPerChannel() }
  }

  datatype Ppa = Ppa(chn: nat, die: nat, plane: nat, block: nat, page: nat)
  datatype PlaneId = PlaneId(chn: nat, die: nat, plane: nat)
  datatype BlockId = BlockId(chn: nat, die: nat, plane: nat, block: nat)

  function PlaneOf(p: Ppa): PlaneId { PlaneId(p.chn, p.die, p.plane) }

  function BlockOf(p: Ppa): BlockId { BlockId(p.chn, p.die, p.plane, p.block) }

  predicate PlaneInRange(g: Geometry, q: PlaneId) {
    q.chn < g.channels && q.die < g.dies && q.plane < g.planes
  }

  predicate InRange(g: Geometry, p: Ppa) {
    PlaneInRange(g, PlaneOf(p)) && p.block < g.blocks && p.page < g.pages
  }

  // The planes, blocks and pages of a geometry. They are chosen by their membership alone.
  ghost predicate ArePlanes(g: Geometry, s: set<PlaneId>) { forall q :: q in s <==> PlaneInRange(g, q) }

  ghost predicate AreBlocks(g: Geometry, s: set<BlockId>) { forall b :: b in s <==> BlockInRange(g, b) }

  ghost predicate ArePages(g: Geometry, s: set<Ppa>) { forall p :: p in s <==> InRange(g, p) }

  ghost function AllPlanes(g: Geometry): (s: set<PlaneId>)
    ensures ArePlanes(g, s)
  {
    assert ArePlanes(g, set c, d, p | 0 <= c < g.channels && 0 <= d < g.dies && 0 <= p < g.planes :: PlaneId(c, d, p));
    var planes :| ArePlanes(g, planes);
    planes
  }

  ghost function AllBlocks(g: Geometry): (s: set<BlockId>)
    ensures AreBlocks(g, s)
  {
    assert AreBlocks(g,
      set c, d, p, b | 0 <= c < g.channels && 0 <= d < g.dies && 0 <= p < g.planes && 0 <= b < g.blocks ::
        BlockId(c, d, p, b));
    var blocks :| AreBlocks(g, blocks);
    blocks
  }

  ghost function AllPages(g: Geometry): (s: set<Ppa>)
    ensures ArePages(g, s)
  {
    assert ArePages(g,
      set c, d, p, b, n | 0 <= c < g.channels && 0 <= d < g.dies && 0 <= p < g.planes && 0 <= b < g.blocks
        && 0 <= n < g.pages ::
        Ppa(c, d, p, b, n));
    var pages :| ArePages(g, pages);
    pages
  }

  predicate BlockInRange(g: Geometry, b: BlockId) {
    PlaneInRange(g, PlaneId(b.chn, b.die, b.plane)) && b.block < g.blocks
  }

  // ---- Address cycles ----------------------------------------------------------------

  // The driver's half: chip select and the 32-bit address register (page in the low half, block in the high half).
  function ChipIndex(g: Geometry, p: Ppa): nat { p.die * g.planes + p.plane }

  function AddressRegister(p: Ppa): nat
    requires p.page < 0x10000 && p.block < 0x10000
  {
    p.page + 0x10000 * p.block
  }

  function CycleByte(register: nat, i: nat): nat {
    if i == 0 then register % 0x100 else CycleByte(register / 0x100, i - 1)
  }

  // The chip's half: it receives the register a byte at a time and reassembles two 16-bit fields.
  function DecodedPage(register: nat): nat { CycleByte(register, 0) + 0x100 * CycleByte(register, 1) }

  function DecodedBlock(register: nat): nat { CycleByte(register, 2) + 0x100 * CycleByte(register, 3) }

  lemma AddressCyclesRoundTrip(p: Ppa)
    requires p.page < 0x10000 && p.block < 0x10000
    ensures DecodedPage(AddressRegister(p)) == p.page
    ensures DecodedBlock(AddressRegister(p)) == p.block
  {
    var r := AddressRegister(p);
    var a0, a1, b0, b1 := p.page % 0x100, p.page / 0x100, p.block % 0x100, p.block / 0x100;
    assert r == a0 + 0x100 * (a1 + 0x100 * (b0 + 0x100 * b1));
    assert r / 0x100 == a1 + 0x100 * (b0 + 0x100 * b1);
    assert r / 0x100 / 0x100 == b0 + 0x100 * b1;
    assert CycleByte(r, 1) == CycleByte(r / 0x100, 0) == a1;
    assert CycleByte(r, 2) == CycleByte(r / 0x100, 1) == CycleByte(r / 0x100 / 0x100, 0) == b0;
    assert CycleByte(r, 3) == CycleByte(r / 0x100, 2) == CycleByte(r / 0x100 / 0x100, 1)
        == CycleByte(r / 0x100 / 0x100 / 0x100, 0) == b1;
  }

  // ---- Image page number -------------------------------------------------------------

  // The controller's 32-bit computation of the page offset in the flash image.
  function ImagePage(g: Geometry, chn: nat, chip: nat, block: nat, page: nat): nat {
    (chn * g.PagesPerChannel() + chip * g.PagesPerPlane() + block * g.pages + page) % U32
  }

  // From a physical page address all the way to the image.
  function PageNumber(g: Geometry, p: Ppa): nat
    requires g.Valid() && InRange(g, p)
  {
    var register := AddressRegister(p);
    ImagePage(g, p.chn, ChipIndex(g, p), DecodedBlock(register), DecodedPage(register))
  }

  function PageAt(g: Geometry, n: nat): Ppa
    requires g.Valid()
  {
    var block := Quotient(n, g.pages);
    var chip := Quotient(block, g.blocks);
    var die := Quotient(chip, g.planes);
    Ppa(Quotient(die, g.dies), Digit(die, g.dies), Digit(chip, g.planes), Digit(block, g.blocks), Digit(n, g.pages))
  }

  function Quotient(n: nat, base: nat): nat
    requires 0 < base
  {
    n / base
  }

  function Digit(n: nat, base: nat): nat
    requires 0 < base
  {
    n % base
  }

  // The same number written as a mixed-radix numeral.
  function Numeral(g: Geometry, p: Ppa): nat {
    (((p.chn * g.dies + p.die) * g.planes + p.plane) * g.blocks + p.block) * g.pages + p.page
  }

  lemma MulOrder(a: nat, b: nat, c: nat)
    requires 0 < c
    ensures a * c < b * c <==> a < b
  {
    assert b * c - a * c == (b - a) * c;
    if a < b {
      assert (b - a) * c == (b - a - 1) * c + c;
    } else {
      assert (a - b) * c >= 0;
    }
  }

  lemma MulMono(a: nat, b: nat, c: nat)
    requires a <= b
    ensures a * c <= b * c
  {
    assert b * c == a * c + (b - a) * c;
  }

  lemma DivMod(hi: nat, lo: nat, base: nat)
    requires lo < base
    ensures Quotient(hi * base + lo, base) == hi && Digit(hi * base + lo, base) == lo
  {
    var n := hi * base + lo;
    assert n / base * base + n % base == n;
    assert (n / base + 1) * base == n / base * base + base;
    assert (hi + 1) * base == hi * base + base;
    MulOrder(n / base, hi + 1, base);
    MulOrder(hi, n / base + 1, base);
  }

  lemma BelowProduct(hi: nat, n: nat, lo: nat, base: nat)
    requires hi < n && lo < base
    ensures hi * base + lo < n * base
  {
    assert n * base == (n - 1 - hi) * base + hi * base + base;
    assert (n - 1 - hi) * base >= 0;
  }

  lemma NumeralIsSum(g: Geometry, p: Ppa)
    ensures Numeral(g, p) ==
            p.chn * g.PagesPerChannel() + ChipIndex(g, p) * g.PagesPerPlane() + p.block * g.pages + p.page
  {
    var chip := (p.chn * g.dies + p.die) * g.planes + p.plane;
    assert chip == p.chn * (g.dies * g.planes) + ChipIndex(g, p) by {
      assert (p.chn * g.dies + p.die) * g.planes == p.chn * g.dies * g.planes + p.die * g.planes;
      Assoc(p.chn, g.dies, g.planes);
    }
    var dp := g.dies * g.planes;
    var ci := ChipIndex(g, p);
    assert (chip * g.blocks + p.block) * g.pages == chip * g.blocks * g.pages + p.block * g.pages;
    Assoc(chip, g.blocks, g.pages);
    assert chip * g.PagesPerPlane() == (p.chn * dp) * g.PagesPerPlane() + ci * g.PagesPerPlane();
    Assoc(p.chn, dp, g.PagesPerPlane());
  }

  lemma Assoc(a: nat, b: nat, c: nat)
    ensures a * b * c == a * (b * c)
  {
  }

  lemma NumeralBounded(g: Geometry, p: Ppa)
    requires g.Valid() && InRange(g, p)
    ensures Numeral(g, p) < g.TotalPages()
  {
    var die, dies := p.chn * g.dies + p.die, g.channels * g.dies;
    BelowProduct(p.chn, g.channels, p.die, g.dies);
    ChipNumeralBounded(g, p, die, dies);
    TotalAsProduct(g);
  }

  lemma ChipNumeralBounded(g: Geometry, p: Ppa, die: nat, dies: nat)
    requires InRange(g, p) && die < dies
    ensures ((die * g.planes + p.plane) * g.blocks + p.block) * g.pages + p.page < dies * g.planes * g.blocks * g.pages
  {
    BelowProduct(die, dies, p.plane, g.planes);
    BelowProduct(die * g.planes + p.plane, dies * g.planes, p.block, g.blocks);
    BelowProduct((die * g.planes + p.plane) * g.blocks + p.block, dies * g.planes * g.blocks, p.page, g.pages);
  }

  lemma TotalAsProduct(g: Geometry)
    ensures g.TotalPages() == g.channels * g.dies * g.planes * g.blocks * g.pages
  {
    var cd := g.channels * g.dies;
    Assoc(g.channels * g.dies * g.planes, g.blocks, g.pages);
    Assoc(g.channels, g.dies, g.planes);
    Assoc(g.channels, g.dies * g.planes, g.PagesPerPlane());
  }

  /** When the whole flash can be numbered in 32 bits, the path from a physical page address to the image
      is a bijection onto the image's page numbers: PageAt is its inverse on both sides. */
  lemma PageNumberBijective(g: Geometry, p: Ppa)
    requires g.Valid() && InRange(g, p) && g.TotalPages() <= U32
    ensures PageNumber(g, p) < g.TotalPages()
    ensures PageAt(g, PageNumber(g, p)) == p
  {
    AddressCyclesRoundTrip(p);
    NumeralIsSum(g, p);
    NumeralBounded(g, p);
    NumeralInverse(g, p);
  }

  lemma NumeralInverse(g: Geometry, p: Ppa)
    requires g.Valid() && InRange(g, p)
    ensures PageAt(g, Numeral(g, p)) == p
  {
    hide PageAt, Quotient, Digit;
    var die := p.chn * g.dies + p.die;
    var chip := die * g.planes + p.plane;
    var block := chip * g.blocks + p.block;
    assert Numeral(g, p) == block * g.pages + p.page;
    BlockInverse(g, p, die, chip, block);
    DivMod(block, p.page, g.pages);
    PageAtFromDigits(g, Numeral(g, p), p, die, chip, block);
  }

  lemma PageAtFromDigits(g: Geometry, n: nat, p: Ppa, die: nat, chip: nat, block: nat)
    requires g.Valid() && Quotient(n, g.pages) == block && Digit(n, g.pages) == p.page
    requires Quotient(block, g.blocks) == chip && Digit(block, g.blocks) == p.block
    requires Quotient(chip, g.planes) == die && Digit(chip, g.planes) == p.plane
    requires Quotient(die, g.dies) == p.chn && Digit(die, g.dies) == p.die
    ensures PageAt(g, n) == p
  {
  }

  lemma BlockInverse(g: Geometry, p: Ppa, die: nat, chip: nat, block: nat)
    requires g.Valid() && InRange(g, p)
    requires die == p.chn * g.dies + p.die && chip == die * g.planes + p.plane && block == chip * g.blocks + p.block
    ensures Quotient(block, g.blocks) == chip && Digit(block, g.blocks) == p.block
    ensures Quotient(chip, g.planes) == die && Digit(chip, g.planes) == p.plane
    ensures Quotient(die, g.dies) == p.chn && Digit(die, g.dies) == p.die
  {
    DivMod(chip, p.block, g.blocks);
    DivMod(die, p.plane, g.planes);
    DivMod(p.chn, p.die, g.dies);
  }

  lemma PageNumberOnto(g: Geometry, n: nat)
    requires g.Valid() && n < g.TotalPages() <= U32
    ensures InRange(g, PageAt(g, n))
    ensures PageNumber(g, PageAt(g, n)) == n
  {
    PageAtInRange(g, n);
    AddressCyclesRoundTrip(PageAt(g, n));
    NumeralIsSum(g, PageAt(g, n));
  }

  lemma PageAtInRange(g: Geometry, n: nat)
    requires g.Valid() && n < g.TotalPages()
    ensures InRange(g, PageAt(g, n))
    ensures Numeral(g, PageAt(g, n)) == n
  {
    var p := PageAt(g, n);
    TotalAsProduct(g);
    var block := Quotient(n, g.pages);
    var chip := Quotient(block, g.blocks);
    var die := Quotient(chip, g.planes);
    QuotientBelow(n, g.channels * g.dies * g.planes * g.blocks, g.pages);
    QuotientBelow(block, g.channels * g.dies * g.planes, g.blocks);
    QuotientBelow(chip, g.channels * g.dies, g.planes);
    QuotientBelow(die, g.channels, g.dies);
    assert Numeral(g, p) == n;
  }

  lemma QuotientBelow(n: nat, hi: nat, base: nat)
    requires 0 < base && n < hi * base
    ensures Quotient(n, base) < hi && n == Quotient(n, base) * base + Digit(n, base)
  {
    MulOrder(n / base, hi, base);
  }

  // Byte offset of a page in the image: a 32-bit product.
  function ByteOffset(page: nat, pageSize: nat): nat { page * pageSize % U32 }

  /** The byte offsets computed in 32 bits are the true offsets of every page exactly when the flash is at
      most 4 GB (page sizes are powers of two, so they divide 4 GB). */
  lemma ByteOffsetExactIff(g: Geometry, pageSize: nat)
    requires g.Valid() && 0 < pageSize && U32 % pageSize == 0
    ensures (forall n: nat :: n < g.TotalPages() ==> ByteOffset(n, pageSize) == n * pageSize)
            <==> g.TotalPages() * pageSize <= U32
  {
    var total := g.TotalPages();
    if total * pageSize <= U32 {
      forall n: nat | n < total ensures ByteOffset(n, pageSize) == n * pageSize {
        SmallOffset(n, total, pageSize);
      }
    } else {
      FirstWrap(total, pageSize);
    }
  }

  lemma SmallOffset(n: nat, total: nat, pageSize: nat)
    requires n < total && 0 < pageSize && total * pageSize <= U32
    ensures ByteOffset(n, pageSize) == n * pageSize
  {
    BelowProduct(n, total, 0, pageSize);
  }

  // The first page beyond 4 GB wraps to offset 0.
  lemma FirstWrap(total: nat, pageSize: nat)
    requires 0 < pageSize && U32 % pageSize == 0 && total * pageSize > U32
    ensures exists n: nat :: n < total && ByteOffset(n, pageSize) != n * pageSize
  {
    var n := Quotient(U32, pageSize);
    assert n * pageSize == U32;
    MulOrder(n, total, pageSize);
    assert ByteOffset(n, pageSize) == 0;
  }

  /** There are TotalPages physical page addresses: they are numbered by Numeral. */
  lemma AllPagesCount(g: Geometry)
    requires g.Valid()
    ensures |AllPages(g)| == g.TotalPages()
  {
    NumberedCount(g, g.TotalPages());
    forall p | InRange(g, p) ensures p in Numbered(g, g.TotalPages()) {
      NumeralBounded(g, p);
      NumeralInverse(g, p);
      assert PageAt(g, Numeral(g, p)) == p;
    }
    forall n: nat | n < g.TotalPages() ensures InRange(g, PageAt(g, n)) {
      PageAtInRange(g, n);
    }
    assert AllPages(g) == Numbered(g, g.TotalPages());
  }

  function Numbered(g: Geometry, n: nat): set<Ppa>
    requires g.Valid()
  {
    set i | 0 <= i < n :: PageAt(g, i)
  }

  lemma {:induction false} NumberedCount(g: Geometry, n: nat)
    requires g.Valid() && n <= g.TotalPages()
    ensures |Numbered(g, n)| == n
  {
    if n > 0 {
      NumberedCount(g, n - 1);
      var p := PageAt(g, n - 1);
      forall i: nat | i < n ensures Numeral(g, PageAt(g, i)) == i {
        PageAtInRange(g, i);
      }
      assert p !in Numbered(g, n - 1);
      assert Numbered(g, n) == Numbered(g, n - 1) + {p};
    }
  }
}
