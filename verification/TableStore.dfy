/** Saving the translation tables in flash at shutdown and loading them at the next start. */
module TableStore {
  import opened Geometry
  import opened MappingTables
  import opened NandIo
  import opened FlashTranslation
  import opened EqualPages

  type Byte = b: nat | b < 0x100

  // ---- Pages set aside for the tables -------------------------------------------------------------------

  /** One page for the tables: allocated and at once marked INVALID. The block's valid counter is decremented although
      the page was never counted, and the totals stay. */
  ghost function Reserve(g: Geometry, t: Tables): (r: (Tables, Ppa))
    requires Core(g, t) && HasRoom(g, t)
    ensures InRange(g, r.1)
  {
    var a := GetFree(g, t);
    assert BlockOf(a.p) in a.t.blk;
    (a.t.(ppa := a.t.ppa[a.p := INVALID_PPA], blk := DecValid(IncInvalid(a.t.blk, BlockOf(a.p)), BlockOf(a.p))), a.p)
  }

  lemma ReserveKeepsCore(g: Geometry, t: Tables)
    requires Core(g, t) && HasRoom(g, t)
    ensures Core(g, Reserve(g, t).0) && Reserve(g, t).0.lpa == t.lpa && Reserve(g, t).0.totals == t.totals
    ensures TookFresh(g, t, Reserve(g, t).0, [Reserve(g, t).1])
    ensures FreePages(g, Reserve(g, t).0) + 1 == FreePages(g, t)
    ensures PlaneInRange(g, PlaneOf(Reserve(g, t).0.selected))
  {
    var a := GetFree(g, t);
    var t' := Reserve(g, t).0;
    TakeKeepsLog(g, t, INVALID_PPA);
    forall l: nat | l < |t'.lpa| ensures LpaAgrees(g, t'.ppa, l, t'.lpa[l]) {
      assert LpaAgrees(g, t.ppa, l, t.lpa[l]);
    }
    forall x | InRange(g, x) ensures EntryAgrees(t'.lpa, x, t'.ppa[x]) {
      assert EntryAgrees(t.lpa, x, t.ppa[x]);
    }
    CountUpdate(t.ppa, AllPages(g), a.p, INVALID_PPA, Free);
  }

  ghost function ReserveAll(g: Geometry, t: Tables, n: nat): (r: (Tables, seq<Ppa>))
    requires Core(g, t) && n <= FreePages(g, t)
    ensures Core(g, r.0) && |r.1| == n && r.0.lpa == t.lpa && r.0.totals == t.totals
    ensures FreePages(g, r.0) + n == FreePages(g, t)
  {
    if n == 0 then (t, [])
    else
      var (t1, ps) := ReserveAll(g, t, n - 1);
      RoomIffFreePage(g, t1);
      ReserveKeepsCore(g, t1);
      var (t2, p) := Reserve(g, t1);
      (t2, ps + [p])
  }

  lemma ReserveAllLast(g: Geometry, t: Tables, n: nat)
    requires Core(g, t) && n + 1 <= FreePages(g, t)
    ensures var (t1, ps) := ReserveAll(g, t, n);
            && HasRoom(g, t1)
            && ReserveAll(g, t, n + 1) == (Reserve(g, t1).0, ps + [Reserve(g, t1).1])
  {
    RoomIffFreePage(g, ReserveAll(g, t, n).0);
  }

  /** The pages set aside are distinct and were FREE. */
  lemma {:induction false} ReserveAllTakesFresh(g: Geometry, t: Tables, n: nat)
    requires Core(g, t) && n <= FreePages(g, t)
    ensures TookFresh(g, t, ReserveAll(g, t, n).0, ReserveAll(g, t, n).1)
  {
    hide Reserve, Core, FreePages;
    if n > 0 {
      ReserveAllTakesFresh(g, t, n - 1);
      ReserveAllLast(g, t, n - 1);
      var (t1, ps) := ReserveAll(g, t, n - 1);
      ReserveKeepsCore(g, t1);
      FreshThenFresh(g, t, t1, Reserve(g, t1).0, ps, Reserve(g, t1).1);
    }
  }

  lemma FreshThenFresh(g: Geometry, t: Tables, t1: Tables, t2: Tables, ps: seq<Ppa>, p: Ppa)
    requires Core(g, t) && Core(g, t1) && Core(g, t2) && TookFresh(g, t, t1, ps) && TookFresh(g, t1, t2, [p])
    ensures TookFresh(g, t, t2, ps + [p])
  {
    hide TookFresh, Placed, Logged, Inverse;
    TookFreshCompose(g, t, t1, t2, ps, p);
  }

  /** After a store of n pages the totals no longer count pages: they show n more FREE pages than there are. */
  lemma TotalsDriftByStore(g: Geometry, t: Tables, n: nat)
    requires Core(g, t) && TotalsExact(g, t) && n <= FreePages(g, t)
    ensures ReserveAll(g, t, n).0.totals.free == FreePages(g, ReserveAll(g, t, n).0) + n
    ensures TotalsExact(g, ReserveAll(g, t, n).0) ==> n == 0
  {
  }

  // How many of these pages lie in block b.
  function TakenIn(ppas: seq<Ppa>, b: BlockId): nat {
    if ppas == [] then 0 else TakenIn(ppas[..|ppas| - 1], b) + One(BlockOf(ppas[|ppas| - 1]) == b)
  }

  lemma {:induction false} TakenInNone(ppas: seq<Ppa>, b: BlockId)
    ensures TakenIn(ppas, b) == 0 <==> forall i | 0 <= i < |ppas| :: BlockOf(ppas[i]) != b
  {
    if ppas != [] {
      var before := ppas[..|ppas| - 1];
      TakenInNone(before, b);
      if forall i | 0 <= i < |ppas| :: BlockOf(ppas[i]) != b {
        assert forall i | 0 <= i < |before| :: BlockOf(before[i]) != b;
      } else if BlockOf(ppas[|ppas| - 1]) != b {
        var i :| 0 <= i < |ppas| && BlockOf(ppas[i]) == b;
        assert before[i] == ppas[i];
      }
    }
  }

  /** The counters of a block in which r pages have been set aside: the invalid counter is exact, the valid counter,
      16 bits wide, is r too small. */
  ghost predicate ShortBy(g: Geometry, t: Tables, b: BlockId, r: nat) {
    && b in t.blk
    && t.blk[b].invalidPgs == CountKind(t.ppa, PagesOf(g, b), Stale)
    && t.blk[b].validPgs < 0x1_0000
    && (t.blk[b].validPgs + r) % 0x1_0000 == CountKind(t.ppa, PagesOf(g, b), Live)
    && r <= CountKind(t.ppa, PagesOf(g, b), Stale)
  }

  // What setting a page aside does to the counters of block b, and to the counts themselves.
  lemma ReserveMeta(g: Geometry, t: Tables, b: BlockId)
    requires Core(g, t) && HasRoom(g, t) && b in t.blk
    ensures var (t', p) := Reserve(g, t);
            && b in t'.blk
            && t'.blk[b] == if BlockOf(p) == b
                            then BlockMeta(Inc16(t.blk[b].invalidPgs), Dec16(t.blk[b].validPgs)) else t.blk[b]
  {
    hide HasRoom, Placed, Logged, Inverse;
    TakeKeepsLog(g, t, INVALID_PPA);
  }

  lemma ReserveCounts(g: Geometry, t: Tables, b: BlockId)
    requires Core(g, t) && HasRoom(g, t) && b in AllBlocks(g)
    ensures var (t', p) := Reserve(g, t);
            var pages := PagesOf(g, b);
            && CountKind(t'.ppa, pages, Live) == CountKind(t.ppa, pages, Live)
            && CountKind(t'.ppa, pages, Stale) == CountKind(t.ppa, pages, Stale) + One(BlockOf(p) == b)
            && CountKind(t.ppa, pages, Live) + CountKind(t'.ppa, pages, Stale) <= g.pages
  {
    hide CountKind, Placed, Logged, Inverse, HasRoom;
    var a := GetFree(g, t);
    TakeKeepsLog(g, t, INVALID_PPA);
    CountUpdate(t.ppa, PagesOf(g, b), a.p, INVALID_PPA, Live);
    CountUpdate(t.ppa, PagesOf(g, b), a.p, INVALID_PPA, Stale);
    CountUpdate(t.ppa, PagesOf(g, b), a.p, INVALID_PPA, Free);
    assert a.p in PagesOf(g, b) <==> BlockOf(a.p) == b;
    BlockCountsSmall(g, t.ppa, b);
  }

  lemma DecrementKeepsSum(valid: nat, r: nat)
    requires valid < 0x1_0000
    ensures Dec16(valid) < 0x1_0000 && (Dec16(valid) + (r + 1)) % 0x1_0000 == (valid + r) % 0x1_0000
  {
  }

  lemma ReserveShort(g: Geometry, t: Tables, b: BlockId, r: nat)
    requires Core(g, t) && HasRoom(g, t) && b in AllBlocks(g) && ShortBy(g, t, b, r)
    ensures ShortBy(g, Reserve(g, t).0, b, r + One(BlockOf(Reserve(g, t).1) == b))
  {
    hide CountKind, Placed, Logged, Inverse, HasRoom, Reserve, PagesOf, AllBlocks, Dec16;
    ReserveMeta(g, t, b);
    ReserveCounts(g, t, b);
    DecrementKeepsSum(t.blk[b].validPgs, r);
  }

  lemma {:induction false} ReserveAllShort(g: Geometry, t: Tables, n: nat, b: BlockId)
    requires Core(g, t) && Counted(g, t) && n <= FreePages(g, t) && b in AllBlocks(g)
    ensures ShortBy(g, ReserveAll(g, t, n).0, b, TakenIn(ReserveAll(g, t, n).1, b))
  {
    hide Reserve, Core, FreePages, ShortBy;
    if n == 0 {
      CountedIsShortByNone(g, t, b);
    } else {
      ReserveAllShort(g, t, n - 1, b);
      ReserveAllLast(g, t, n - 1);
      ReserveShort(g, ReserveAll(g, t, n - 1).0, b, TakenIn(ReserveAll(g, t, n - 1).1, b));
    }
  }

  lemma CountedIsShortByNone(g: Geometry, t: Tables, b: BlockId)
    requires Core(g, t) && Counted(g, t) && b in AllBlocks(g)
    ensures ShortBy(g, t, b, 0)
  {
    assert BlockCounted(g, t, b);
    BlockCountsSmall(g, t.ppa, b);
  }

  /** After a store the invalid counter of every block is exact and its valid counter is short, modulo 16 bits, by the
      pages set aside in it; so the block is counted right exactly when none was. */
  lemma BlockCountersAfterStore(g: Geometry, t: Tables, n: nat, b: BlockId)
    requires Core(g, t) && Counted(g, t) && n <= FreePages(g, t) && b in AllBlocks(g)
    ensures var (t', ppas) := ReserveAll(g, t, n);
            && ShortBy(g, t', b, TakenIn(ppas, b))
            && (BlockCounted(g, t', b) <==> forall i | 0 <= i < |ppas| :: BlockOf(ppas[i]) != b)
  {
    hide Reserve, ReserveAll, Core, FreePages, ShortBy, BlockCounted, Counted;
    ReserveAllShort(g, t, n, b);
    TakenInNone(ReserveAll(g, t, n).1, b);
    ShortByNoneIsCounted(g, ReserveAll(g, t, n).0, b, TakenIn(ReserveAll(g, t, n).1, b));
  }

  lemma ShortByNoneIsCounted(g: Geometry, t: Tables, b: BlockId, r: nat)
    requires Core(g, t) && b in AllBlocks(g) && ShortBy(g, t, b, r)
    ensures BlockCounted(g, t, b) <==> r == 0
  {
    hide CountKind, Placed, Logged, Inverse;
    BlockCountsSmall(g, t.ppa, b);
  }

  // ---- Sizes --------------------------------------------------------------------------------------------------

  const CONFIG_WORDS := 11
  const CONFIG_PPAS := 1225
  const CONFIG_SIZE := 9844
  const MAX_TABLE_PAGES := 1224
  const LOAD_BUFFER_SIZE := 0x1_0000

  // rpp_map_tables, and the pages that are in fact written.
  function TablePages(bytes: nat, pageSize: nat): nat
    requires 0 < pageSize
  {
    Quotient(bytes, pageSize) + 1
  }

  function UsedPages(bytes: nat, pageSize: nat): nat
    requires 0 < pageSize
  {
    if Digit(bytes, pageSize) == 0 then Quotient(bytes, pageSize) else Quotient(bytes, pageSize) + 1
  }

  /** The page sizes the store can handle: a power of two from 512 bytes on that divides the load buffer, with three
      pages holding the configuration. */
  predicate PageSizeFits(pageSize: nat) {
    0 < pageSize && LOAD_BUFFER_SIZE % pageSize == 0 && CONFIG_SIZE <= 3 * pageSize
  }

  /** A chunk of the loader is at most 128 page reads exactly when a page has at least 512 bytes. */
  lemma ChunkFitsOperation(pageSize: nat)
    requires 0 < pageSize && LOAD_BUFFER_SIZE % pageSize == 0
    ensures Quotient(LOAD_BUFFER_SIZE, pageSize) <= MAX_OP_PAGES <==> 512 <= pageSize
  {
    var c := Quotient(LOAD_BUFFER_SIZE, pageSize);
    assert c * pageSize == LOAD_BUFFER_SIZE;
    if pageSize < 512 && c <= MAX_OP_PAGES { MulMono(c, MAX_OP_PAGES, pageSize); }
    if 512 <= pageSize && c > MAX_OP_PAGES { MulMono(MAX_OP_PAGES + 1, c, pageSize); }
  }

  lemma UsedPagesBounds(bytes: nat, pageSize: nat)
    requires 0 < pageSize
    ensures UsedPages(bytes, pageSize) <= TablePages(bytes, pageSize)
    ensures bytes <= UsedPages(bytes, pageSize) * pageSize
    ensures 0 < bytes ==> 0 < UsedPages(bytes, pageSize) && (UsedPages(bytes, pageSize) - 1) * pageSize < bytes
  {
    var q, r := Quotient(bytes, pageSize), Digit(bytes, pageSize);
    assert bytes == q * pageSize + r;
    assert (q + 1) * pageSize == q * pageSize + pageSize;
    if q > 0 { assert (q - 1) * pageSize == q * pageSize - pageSize; }
  }

  // ---- Bytes in pages ---------------------------------------------------------------------------------------------

  // Page i of a byte string, zeros after its end.
  function PageAtIndex(bytes: seq<Byte>, pageSize: nat, i: nat): (p: seq<Byte>)
    ensures |p| == pageSize
  {
    seq(pageSize, j requires 0 <= j => if i * pageSize + j < |bytes| then bytes[i * pageSize + j] else 0)
  }

  predicate WholePages(pages: seq<seq<Byte>>, pageSize: nat) { forall i | 0 <= i < |pages| :: |pages[i]| == pageSize }

  /** The bytes of a run of pages. */
  function Joined(pages: seq<seq<Byte>>, pageSize: nat): (b: seq<Byte>)
    requires 0 < pageSize && WholePages(pages, pageSize)
    ensures |b| == |pages| * pageSize
  {
    seq(|pages| * pageSize, k requires 0 <= k < |pages| * pageSize =>
      IndexInPages(k, |pages|, pageSize);
      pages[Quotient(k, pageSize)][Digit(k, pageSize)])
  }

  lemma IndexInPages(k: nat, n: nat, pageSize: nat)
    requires 0 < pageSize && k < n * pageSize
    ensures Quotient(k, pageSize) < n && Digit(k, pageSize) < pageSize
    ensures k == Quotient(k, pageSize) * pageSize + Digit(k, pageSize)
  {
    QuotientBelow(k, n, pageSize);
  }

  /** Pages first, first + 1, ... of a byte string hold the string from there on. */
  lemma FlatOfPages(bytes: seq<Byte>, pageSize: nat, first: nat, pages: seq<seq<Byte>>, len: nat)
    requires 0 < pageSize && WholePages(pages, pageSize) && len <= |pages| * pageSize
    requires first * pageSize + len <= |bytes|
    requires forall i | 0 <= i < |pages| :: pages[i] == PageAtIndex(bytes, pageSize, first + i)
    ensures Joined(pages, pageSize)[..len] == bytes[first * pageSize..first * pageSize + len]
  {
    forall k | 0 <= k < len
      ensures Joined(pages, pageSize)[..len][k] == bytes[first * pageSize..first * pageSize + len][k]
    {
      FlatByte(bytes, pageSize, first, pages, k);
    }
  }

  lemma FlatByte(bytes: seq<Byte>, pageSize: nat, first: nat, pages: seq<seq<Byte>>, k: nat)
    requires 0 < pageSize && WholePages(pages, pageSize) && k < |pages| * pageSize && first * pageSize + k < |bytes|
    requires forall i | 0 <= i < |pages| :: pages[i] == PageAtIndex(bytes, pageSize, first + i)
    ensures Joined(pages, pageSize)[k] == bytes[first * pageSize + k]
  {
    IndexInPages(k, |pages|, pageSize);
    var i, j := Quotient(k, pageSize), Digit(k, pageSize);
    assert (first + i) * pageSize + j == first * pageSize + k;
  }

  // ---- The configuration record -------------------------------------------------------------------------------------

  /** ftl_config_t: eleven 32-bit words and 1225 page addresses of eight bytes, the last selected page and the list of
      table pages. */
  datatype Config = Config(words: seq<nat>, ppas: seq<Ppa>)

  predicate ConfigFits(c: Config) {
    && |c.words| == CONFIG_WORDS && |c.ppas| == CONFIG_PPAS
    && (forall i | 0 <= i < |c.words| :: c.words[i] < U32)
    && (forall i | 0 <= i < |c.ppas| :: PpaFits(c.ppas[i]))
  }

  // The field widths of ppa_t.
  predicate PpaFits(p: Ppa) {
    p.page < 0x1_0000 && p.block < 0x1_0000 && p.plane < 0x100 && p.die < 0x100 && p.chn < 0x100
  }

  function WordByte(w: nat, j: nat): (b: Byte)
    requires w < U32
  {
    if j == 0 then w % 0x100
    else if j == 1 then w / 0x100 % 0x100
    else if j == 2 then w / 0x1_0000 % 0x100
    else w / 0x100_0000
  }

  function PpaByte(p: Ppa, j: nat): (b: Byte)
    requires PpaFits(p)
  {
    if j == 0 then p.page % 0x100 else if j == 1 then p.page / 0x100
    else if j == 2 then p.block % 0x100 else if j == 3 then p.block / 0x100
    else if j == 4 then p.plane else if j == 5 then p.die else if j == 6 then p.chn else 0
  }

  function Encode(c: Config): (b: seq<Byte>)
    requires ConfigFits(c)
    ensures |b| == CONFIG_SIZE
  {
    seq(CONFIG_SIZE, k requires 0 <= k < CONFIG_SIZE =>
      if k < 44 then WordByte(c.words[k / 4], k % 4) else PpaByte(c.ppas[(k - 44) / 8], (k - 44) % 8))
  }

  function ByteAt(b: seq<Byte>, at: nat): nat
    requires at < |b|
  {
    b[at]
  }

  function WordOf(b: seq<Byte>, at: nat): nat
    requires at + 4 <= |b|
  {
    ByteAt(b, at) + 0x100 * ByteAt(b, at + 1) + 0x1_0000 * ByteAt(b, at + 2) + 0x100_0000 * ByteAt(b, at + 3)
  }

  function PpaAt(b: seq<Byte>, at: nat): Ppa
    requires at + 8 <= |b|
  {
    Ppa(b[at + 6], b[at + 5], b[at + 4], ByteAt(b, at + 2) + 0x100 * ByteAt(b, at + 3),
      ByteAt(b, at) + 0x100 * ByteAt(b, at + 1))
  }

  function Decode(b: seq<Byte>): (c: Config)
    requires |b| == CONFIG_SIZE
  {
    Config(seq(CONFIG_WORDS, i requires 0 <= i < CONFIG_WORDS => WordOf(b, 4 * i)),
           seq(CONFIG_PPAS, i requires 0 <= i < CONFIG_PPAS => PpaAt(b, 44 + 8 * i)))
  }

  lemma WordRoundTrip(c: Config, i: nat)
    requires ConfigFits(c) && i < CONFIG_WORDS
    ensures WordOf(Encode(c), 4 * i) == c.words[i]
  {
    var b, w := Encode(c), c.words[i];
    assert b[4 * i] == WordByte(w, 0) && b[4 * i + 1] == WordByte(w, 1);
    assert b[4 * i + 2] == WordByte(w, 2) && b[4 * i + 3] == WordByte(w, 3);
    assert w / 0x1_0000 == w / 0x100 / 0x100 && w / 0x100_0000 == w / 0x1_0000 / 0x100;
  }

  lemma PpaRoundTrip(c: Config, i: nat)
    requires ConfigFits(c) && i < CONFIG_PPAS
    ensures PpaAt(Encode(c), 44 + 8 * i) == c.ppas[i]
  {
    hide Encode, PpaByte;
    forall j: nat | j < 8 ensures Encode(c)[44 + 8 * i + j] == PpaByte(c.ppas[i], j) { EncodedByte(c, i, j); }
    PpaBytes(c.ppas[i]);
  }

  lemma EncodedByte(c: Config, i: nat, j: nat)
    requires ConfigFits(c) && i < CONFIG_PPAS && j < 8
    ensures Encode(c)[44 + 8 * i + j] == PpaByte(c.ppas[i], j)
  {
    hide PpaByte;
  }

  lemma PpaBytes(p: Ppa)
    requires PpaFits(p)
    ensures p.page == PpaByte(p, 0) + 0x100 * PpaByte(p, 1) && p.block == PpaByte(p, 2) + 0x100 * PpaByte(p, 3)
    ensures p.plane == PpaByte(p, 4) && p.die == PpaByte(p, 5) && p.chn == PpaByte(p, 6)
  {
  }

  /** The bytes of a configuration record determine it. */
  lemma ConfigRoundTrip(c: Config)
    requires ConfigFits(c)
    ensures Decode(Encode(c)) == c
  {
    hide Encode, WordOf, PpaAt;
    forall i: nat | i < CONFIG_WORDS ensures WordOf(Encode(c), 4 * i) == c.words[i] { WordRoundTrip(c, i); }
    forall i: nat | i < CONFIG_PPAS ensures PpaAt(Encode(c), 44 + 8 * i) == c.ppas[i] { PpaRoundTrip(c, i); }
  }

  // ---- What reaches the flash and what is read back ---------------------------------------------------------

  // The table pages after the first k have been programmed.
  function WriteTablePages(flash: map<Ppa, seq<Byte>>, ppas: seq<Ppa>, section: seq<Byte>, pageSize: nat,
          k: nat): map<Ppa, seq<Byte>>
    requires k <= |ppas|
  {
    if k == 0 then flash
    else WriteTablePages(flash, ppas, section, pageSize, k - 1)[ppas[k - 1] := PageAtIndex(section, pageSize, k - 1)]
  }

  function HeaderPpa(i: nat): Ppa { Ppa(0, 0, 0, 0, i) }

  // The three header pages hold the first bytes of the buffer.
  function WriteHeaderPages(flash: map<Ppa, seq<Byte>>, buffer: seq<Byte>, pageSize: nat): map<Ppa, seq<Byte>> {
    flash[HeaderPpa(0) := PageAtIndex(buffer, pageSize, 0)]
         [HeaderPpa(1) := PageAtIndex(buffer, pageSize, 1)]
         [HeaderPpa(2) := PageAtIndex(buffer, pageSize, 2)]
  }

  predicate PagesThere(flash: map<Ppa, seq<Byte>>, ppas: seq<Ppa>, pageSize: nat) {
    forall i | 0 <= i < |ppas| :: ppas[i] in flash && |flash[ppas[i]]| == pageSize
  }

  /** The first n bytes of the pages listed. */
  function LoadedBytes(flash: map<Ppa, seq<Byte>>, ppas: seq<Ppa>, pageSize: nat, n: nat): (b: seq<Byte>)
    requires 0 < pageSize && UsedPages(n, pageSize) <= |ppas| && PagesThere(flash, ppas, pageSize)
    ensures |b| == n
  {
    UsedPagesBounds(n, pageSize);
    Joined(ContentsOf(flash, ppas, UsedPages(n, pageSize)), pageSize)[..n]
  }

  function ContentsOf(flash: map<Ppa, seq<Byte>>, ppas: seq<Ppa>, k: nat): seq<seq<Byte>>
    requires k <= |ppas| && forall i | 0 <= i < |ppas| :: ppas[i] in flash
  {
    seq(k, i requires 0 <= i < k => flash[ppas[i]])
  }

  lemma {:induction false} TablePagesAt(flash: map<Ppa, seq<Byte>>, ppas: seq<Ppa>, section: seq<Byte>, pageSize: nat,
          k: nat)
    requires k <= |ppas| && forall i, j | 0 <= i < j < |ppas| :: ppas[i] != ppas[j]
    ensures var f := WriteTablePages(flash, ppas, section, pageSize, k);
            && (forall i | 0 <= i < k :: ppas[i] in f && f[ppas[i]] == PageAtIndex(section, pageSize, i))
            && (forall p | p in flash && p !in ppas :: p in f && f[p] == flash[p])
  {
    if k > 0 { TablePagesAt(flash, ppas, section, pageSize, k - 1); }
  }

  predicate IsHeader(p: Ppa) { exists i | 0 <= i < 3 :: p == HeaderPpa(i) }

  lemma IsHeaderIs(p: Ppa)
    ensures IsHeader(p) <==> p == HeaderPpa(0) || p == HeaderPpa(1) || p == HeaderPpa(2)
  {
    if p == HeaderPpa(0) || p == HeaderPpa(1) || p == HeaderPpa(2) { assert p == HeaderPpa(p.page); }
  }

  predicate AvoidsHeader(ppas: seq<Ppa>) { forall i | 0 <= i < |ppas| :: !IsHeader(ppas[i]) }

  // Where the flash is after a store.
  function Stored(flash: map<Ppa, seq<Byte>>, ppas: seq<Ppa>, section: seq<Byte>, buffer: seq<Byte>,
          pageSize: nat): map<Ppa, seq<Byte>>
    requires 0 < pageSize && UsedPages(|section|, pageSize) <= |ppas|
  {
    WriteHeaderPages(WriteTablePages(flash, ppas, section, pageSize, UsedPages(|section|, pageSize)), buffer, pageSize)
  }

  // The configuration as the restore reads it.
  function LoadedConfig(flash: map<Ppa, seq<Byte>>, pageSize: nat): Config
    requires CONFIG_SIZE <= 3 * pageSize && HeaderThere(flash, pageSize)
  {
    Decode(Joined([flash[HeaderPpa(0)], flash[HeaderPpa(1)], flash[HeaderPpa(2)]], pageSize)[..CONFIG_SIZE])
  }

  predicate HeaderThere(flash: map<Ppa, seq<Byte>>, pageSize: nat) {
    forall i | 0 <= i < 3 :: HeaderPpa(i) in flash && |flash[HeaderPpa(i)]| == pageSize
  }

  /** The configuration comes back from the header pages. */
  lemma ConfigSurvives(flash: map<Ppa, seq<Byte>>, buffer: seq<Byte>, pageSize: nat, c: Config)
    requires PageSizeFits(pageSize) && ConfigFits(c) && CONFIG_SIZE <= |buffer| && buffer[..CONFIG_SIZE] == Encode(c)
    ensures HeaderThere(WriteHeaderPages(flash, buffer, pageSize), pageSize)
    ensures LoadedConfig(WriteHeaderPages(flash, buffer, pageSize), pageSize) == c
  {
    hide Encode, Decode;
    var f := WriteHeaderPages(flash, buffer, pageSize);
    var pages := [f[HeaderPpa(0)], f[HeaderPpa(1)], f[HeaderPpa(2)]];
    FlatOfPages(buffer, pageSize, 0, pages, CONFIG_SIZE);
    assert 0 * pageSize == 0;
    ConfigRoundTrip(c);
  }

  /** The restore reads back the section: the pages that hold it, joined. */
  predicate Restores(flash: map<Ppa, seq<Byte>>, ppas: seq<Ppa>, section: seq<Byte>, buffer: seq<Byte>, pageSize: nat)
    requires 0 < pageSize && UsedPages(|section|, pageSize) <= |ppas|
  {
    var f, used := Stored(flash, ppas, section, buffer, pageSize), ppas[..UsedPages(|section|, pageSize)];
    PagesThere(f, used, pageSize) && LoadedBytes(f, used, pageSize, |section|) == section
  }

  // What the pages of the section hold after a store.
  lemma StoredPage(flash: map<Ppa, seq<Byte>>, ppas: seq<Ppa>, section: seq<Byte>, buffer: seq<Byte>, pageSize: nat,
          i: nat)
    requires 0 < pageSize && i < UsedPages(|section|, pageSize) <= |ppas| && DistinctPpas(ppas)
    ensures var f := Stored(flash, ppas, section, buffer, pageSize);
            && ppas[i] in f
            && f[ppas[i]] == if IsHeader(ppas[i]) then PageAtIndex(buffer, pageSize, ppas[i].page)
                             else PageAtIndex(section, pageSize, i)
  {
    hide PageAtIndex, IsHeader;
    TablePagesAt(flash, ppas, section, pageSize, UsedPages(|section|, pageSize));
    IsHeaderIs(ppas[i]);
  }

  lemma StoredPagesThere(flash: map<Ppa, seq<Byte>>, ppas: seq<Ppa>, section: seq<Byte>, buffer: seq<Byte>,
          pageSize: nat)
    requires 0 < pageSize && UsedPages(|section|, pageSize) <= |ppas| && DistinctPpas(ppas)
    ensures PagesThere(Stored(flash, ppas, section, buffer, pageSize), ppas[..UsedPages(|section|, pageSize)], pageSize)
  {
    hide PageAtIndex, IsHeader, Stored;
    var used := ppas[..UsedPages(|section|, pageSize)];
    forall i | 0 <= i < |used|
      ensures used[i] in Stored(flash, ppas, section, buffer, pageSize)
      ensures |Stored(flash, ppas, section, buffer, pageSize)[used[i]]| == pageSize
    {
      StoredPage(flash, ppas, section, buffer, pageSize, i);
    }
  }

  lemma RestoresWhenClear(flash: map<Ppa, seq<Byte>>, ppas: seq<Ppa>, section: seq<Byte>, buffer: seq<Byte>,
          pageSize: nat)
    requires 0 < pageSize && UsedPages(|section|, pageSize) <= |ppas| && DistinctPpas(ppas)
    requires AvoidsHeader(ppas[..UsedPages(|section|, pageSize)])
    ensures Restores(flash, ppas, section, buffer, pageSize)
  {
    hide Joined, Quotient, Digit, UsedPages, IsHeader, PageAtIndex, Stored;
    var n := UsedPages(|section|, pageSize);
    var f := Stored(flash, ppas, section, buffer, pageSize);
    UsedPagesBounds(|section|, pageSize);
    StoredPagesThere(flash, ppas, section, buffer, pageSize);
    forall i | 0 <= i < n ensures f[ppas[..n][i]] == PageAtIndex(section, pageSize, 0 + i) {
      assert !IsHeader(ppas[..n][i]);
      StoredPage(flash, ppas, section, buffer, pageSize, i);
    }
    assert 0 * pageSize == 0;
    FlatOfPages(section, pageSize, 0, ContentsOf(f, ppas[..n], n), |section|);
    assert section[0..0 + |section|] == section;
  }

  // A section whose page i does not begin as this buffer page does.
  function Clash(size: nat, at: nat, first: Byte): (s: seq<Byte>)
    ensures |s| == size
  {
    seq(size, k => if k == at && first == 0 then 1 else 0)
  }

  lemma LosesOnHeader(flash: map<Ppa, seq<Byte>>, ppas: seq<Ppa>, buffer: seq<Byte>, pageSize: nat, size: nat, i: nat)
    returns (section: seq<Byte>)
    requires 0 < pageSize && i < UsedPages(size, pageSize) <= |ppas| && DistinctPpas(ppas) && IsHeader(ppas[i])
    ensures |section| == size && !Restores(flash, ppas, section, buffer, pageSize)
  {
    hide UsedPages, IsHeader, PageAtIndex, Stored, Quotient, Digit, LoadedBytes;
    var n, at := UsedPages(size, pageSize), i * pageSize;
    var page := PageAtIndex(buffer, pageSize, ppas[i].page);
    section := Clash(size, at, page[0]);
    var f := Stored(flash, ppas, section, buffer, pageSize);
    StoredPage(flash, ppas, section, buffer, pageSize, i);
    StoredPagesThere(flash, ppas, section, buffer, pageSize);
    LoadedAt(f, ppas[..n], pageSize, size, i);
    assert f[ppas[..n][i]] == page;
  }

  // The first byte of page i of the section.
  lemma LoadedAt(flash: map<Ppa, seq<Byte>>, used: seq<Ppa>, pageSize: nat, size: nat, i: nat)
    requires 0 < pageSize && i < UsedPages(size, pageSize) == |used| && PagesThere(flash, used, pageSize)
    ensures i * pageSize < size
    ensures LoadedBytes(flash, used, pageSize, size)[i * pageSize] == flash[used[i]][0]
  {
    if size == 0 { DivMod(0, 0, pageSize); }
    UsedPagesBounds(size, pageSize);
    MulMono(i, |used| - 1, pageSize);
    DivMod(i, 0, pageSize);
  }

  /** For distinct table pages, and whatever the buffer holds, the restore gives back every section of this size if and
      only if none of the pages used for it is a header page. */
  lemma RestoresIff(flash: map<Ppa, seq<Byte>>, ppas: seq<Ppa>, buffer: seq<Byte>, pageSize: nat, size: nat)
    requires 0 < pageSize && UsedPages(size, pageSize) <= |ppas| && DistinctPpas(ppas)
    ensures (forall section: seq<Byte> | |section| == size :: Restores(flash, ppas, section, buffer, pageSize))
            <==> AvoidsHeader(ppas[..UsedPages(size, pageSize)])
  {
    hide UsedPages, IsHeader, Restores, DistinctPpas;
    var used := ppas[..UsedPages(size, pageSize)];
    if AvoidsHeader(used) {
      forall section: seq<Byte> | |section| == size ensures Restores(flash, ppas, section, buffer, pageSize) {
        RestoresWhenClear(flash, ppas, section, buffer, pageSize);
      }
    } else {
      var i :| 0 <= i < |used| && IsHeader(used[i]);
      var section := LosesOnHeader(flash, ppas, buffer, pageSize, size, i);
    }
  }

  /** Restoring after a store gives back exactly the stored tables and configuration, whatever the table pages held
      before, provided the table pages are distinct and those used are not header pages. */
  lemma StoreThenRestore(flash: map<Ppa, seq<Byte>>, ppas: seq<Ppa>, section: seq<Byte>, buffer: seq<Byte>,
          pageSize: nat, c: Config)
    requires PageSizeFits(pageSize) && ConfigFits(c) && CONFIG_SIZE <= |buffer| && buffer[..CONFIG_SIZE] == Encode(c)
    requires UsedPages(|section|, pageSize) <= |ppas| <= MAX_TABLE_PAGES && ppas == c.ppas[1..1 + |ppas|]
    requires DistinctPpas(ppas) && AvoidsHeader(ppas[..UsedPages(|section|, pageSize)])
    ensures var f, n := Stored(flash, ppas, section, buffer, pageSize), UsedPages(|section|, pageSize);
            && HeaderThere(f, pageSize) && LoadedConfig(f, pageSize) == c
            && PagesThere(f, c.ppas[1..1 + n], pageSize)
            && LoadedBytes(f, c.ppas[1..1 + n], pageSize, |section|) == section
  {
    hide Encode, Decode, LoadedConfig, LoadedBytes, UsedPages, PagesThere, IsHeader, HeaderThere, WriteHeaderPages;
    var n := UsedPages(|section|, pageSize);
    ConfigSurvives(WriteTablePages(flash, ppas, section, pageSize, n), buffer, pageSize, c);
    RestoresWhenClear(flash, ppas, section, buffer, pageSize);
    assert ppas[..n] == c.ppas[1..1 + n];
  }

  // ---- The disk across a shutdown ---------------------------------------------------------------------------

  // The medium after the next start: the search goes on from the last selected page.
  function PowerCycle(t: Tables): Tables { t.(last := t.selected) }

  /** What a logical page reads as after a store and restart: unchanged, unless it sits on one of the three header
      pages, where it has become a piece of the configuration record. */
  lemma ContentAfterStore(g: Geometry, m: Media<seq<Byte>>, zero: seq<Byte>, section: seq<Byte>, buffer: seq<Byte>,
          pageSize: nat, l: nat)
    requires Sound(g, m) && l < |m.t.lpa| && 0 < pageSize && 3 <= g.pages
    requires TablePages(|section|, pageSize) <= FreePages(g, m.t)
    ensures var (t', ppas) := ReserveAll(g, m.t, TablePages(|section|, pageSize));
            && UsedPages(|section|, pageSize) <= |ppas|
            && var m' := Media(PowerCycle(t'), Stored(m.flash, ppas, section, buffer, pageSize));
               && Sound(g, m')
               && Content(g, m', zero, l) ==
                  if !Unmapped(m.t, l) && IsHeader(m.t.lpa[l]) then PageAtIndex(buffer, pageSize, m.t.lpa[l].page)
                  else Content(g, m, zero, l)
  {
    hide Reserve, FreePages, PageAtIndex;
    var n := TablePages(|section|, pageSize);
    var (t', ppas) := ReserveAll(g, m.t, n);
    UsedPagesBounds(|section|, pageSize);
    ReserveAllTakesFresh(g, m.t, n);
    PowerCycleKeepsCore(g, m.t, n);
    StoredKeys(g, m.flash, ppas, section, buffer, pageSize);
    assert LpaAgrees(g, m.t.ppa, l, m.t.lpa[l]);
    if !Unmapped(m.t, l) {
      assert m.t.lpa[l] !in ppas;
      StoredAt(m.flash, ppas, section, buffer, pageSize, m.t.lpa[l]);
    }
  }

  /** The last page set aside is the one the allocator remembers as selected. */
  lemma SelectedAfterReserve(g: Geometry, t: Tables, n: nat)
    requires Core(g, t) && 0 < n <= FreePages(g, t)
    ensures var (t', ppas) := ReserveAll(g, t, n);
            PlaneOf(t'.selected) == PlaneOf(ppas[n - 1]) == PlaneOf(PowerCycle(t').last)
  {
    hide FreePages, Core, Reserve, ReserveAll;
    ReserveAllLast(g, t, n - 1);
    ReserveSelects(g, ReserveAll(g, t, n - 1).0);
  }

  lemma ReserveSelects(g: Geometry, t: Tables)
    requires Core(g, t) && HasRoom(g, t)
    ensures PlaneOf(Reserve(g, t).0.selected) == PlaneOf(Reserve(g, t).1)
  {
    hide Inverse, Logged, GetFree;
    OdometerOnPageTaken(g, t);
  }

  /** After a start the search goes on where the shutdown left it: with room there, the first mapping takes a page of
      the plane after that of the last table page. */
  lemma FirstMappingAfterStart(g: Geometry, t: Tables, n: nat, l: nat)
    requires Core(g, t) && 0 < n <= FreePages(g, t) && l < |t.lpa|
    ensures Core(g, PowerCycle(ReserveAll(g, t, n).0))
    ensures var (t', ppas) := ReserveAll(g, t, n);
            var q := NextPlane(g, PlaneOf(ppas[n - 1]));
            && q in t'.cursor
            && (!Full(g, t'.cursor[q]) ==>
                 HasRoom(g, PowerCycle(t')) && PlaneOf(MakeMapping(g, PowerCycle(t'), l).1) == q)
  {
    hide FreePages, Inverse, Logged, ReserveAll;
    PowerCycleKeepsCore(g, t, n);
    SelectedAfterReserve(g, t, n);
    var t' := PowerCycle(ReserveAll(g, t, n).0);
    PlaceInRing(g, t');
    if !Full(g, t'.cursor[NextPlane(g, PlaneOf(t'.last))]) { NextPlaneIsTaken(g, t'); }
  }

  lemma PowerCycleKeepsCore(g: Geometry, t: Tables, n: nat)
    requires Core(g, t) && 0 < n <= FreePages(g, t)
    ensures Core(g, PowerCycle(ReserveAll(g, t, n).0))
  {
    hide Reserve, FreePages, Inverse, Logged;
    ReserveAllLast(g, t, n - 1);
    ReserveKeepsCore(g, ReserveAll(g, t, n - 1).0);
  }

  // Only the pages used are programmed.
  lemma {:induction false} OnlyUsedPages(flash: map<Ppa, seq<Byte>>, ppas: seq<Ppa>, section: seq<Byte>, pageSize: nat,
          k: nat, n: nat)
    requires k <= n <= |ppas|
    ensures WriteTablePages(flash, ppas, section, pageSize, k)
            == WriteTablePages(flash, ppas[..n], section, pageSize, k)
  {
    if k > 0 { OnlyUsedPages(flash, ppas, section, pageSize, k - 1, n); }
  }

  lemma StoredAt(flash: map<Ppa, seq<Byte>>, ppas: seq<Ppa>, section: seq<Byte>, buffer: seq<Byte>, pageSize: nat,
          p: Ppa)
    requires 0 < pageSize && UsedPages(|section|, pageSize) <= |ppas| && p in flash && p !in ppas
    requires forall i, j | 0 <= i < j < |ppas| :: ppas[i] != ppas[j]
    ensures p in Stored(flash, ppas, section, buffer, pageSize)
    ensures Stored(flash, ppas, section, buffer, pageSize)[p] ==
              if IsHeader(p) then PageAtIndex(buffer, pageSize, p.page) else flash[p]
  {
    hide PageAtIndex;
    TablePagesAt(flash, ppas, section, pageSize, UsedPages(|section|, pageSize));
    IsHeaderIs(p);
  }

  lemma {:induction false} TablePagesKeys(flash: map<Ppa, seq<Byte>>, ppas: seq<Ppa>, section: seq<Byte>,
          pageSize: nat, k: nat)
    requires k <= |ppas| && forall i | 0 <= i < |ppas| :: ppas[i] in flash
    ensures WriteTablePages(flash, ppas, section, pageSize, k).Keys == flash.Keys
  {
    if k > 0 { TablePagesKeys(flash, ppas, section, pageSize, k - 1); }
  }

  lemma StoredKeys(g: Geometry, flash: map<Ppa, seq<Byte>>, ppas: seq<Ppa>, section: seq<Byte>, buffer: seq<Byte>,
          pageSize: nat)
    requires g.Valid() && flash.Keys == AllPages(g) && 3 <= g.pages && 0 < pageSize
    requires UsedPages(|section|, pageSize) <= |ppas|
    requires forall i | 0 <= i < |ppas| :: InRange(g, ppas[i])
    ensures Stored(flash, ppas, section, buffer, pageSize).Keys == AllPages(g)
  {
    hide PageAtIndex;
    TablePagesKeys(flash, ppas, section, pageSize, UsedPages(|section|, pageSize));
    assert InRange(g, HeaderPpa(0)) && InRange(g, HeaderPpa(1)) && InRange(g, HeaderPpa(2));
  }

  ghost predicate HeaderReserved(g: Geometry, t: Tables) {
    Shape(g, t) && 3 <= g.pages && forall i | 0 <= i < 3 ::
      InRange(g, HeaderPpa(i)) && t.ppa[HeaderPpa(i)] == RESERVED_PPA
  }

  /** With all three header pages reserved no logical page is mapped there, and neither a mapping nor setting a table
      page aside takes one of them. */
  lemma ReservedHeaderIsSafe(g: Geometry, t: Tables, l: nat)
    requires Core(g, t) && HeaderReserved(g, t) && l < |t.lpa|
    ensures !Unmapped(t, l) ==> !IsHeader(t.lpa[l])
    ensures HasRoom(g, t) ==> HeaderReserved(g, MakeMapping(g, t, l).0) && HeaderReserved(g, Reserve(g, t).0)
    ensures HasRoom(g, t) ==> !IsHeader(Reserve(g, t).1)
  {
    hide GetFree;
    assert LpaAgrees(g, t.ppa, l, t.lpa[l]);
    if HasRoom(g, t) {
      MakeMappingKeepsCore(g, t, l);
      ReserveKeepsCore(g, t);
      TakeKeepsLog(g, t, INVALID_PPA);
    }
  }

  lemma NewMediaReservesHeader(g: Geometry, lpns: nat, reserved: nat)
    requires g.Valid() && 3 <= g.pages && reserved <= g.pages && lpns <= FREE_PPA
    ensures HeaderReserved(g, NewMedia(g, lpns, reserved)) <==> 3 <= reserved
  {
    NewMediaCore(g, lpns, reserved);
    assert InRange(g, HeaderPpa(0)) && InRange(g, HeaderPpa(1)) && InRange(g, HeaderPpa(2));
  }

  /** No table page is set aside on a reserved header page, and the header stays reserved. */
  lemma {:induction false} ReserveAllAvoidsHeader(g: Geometry, t: Tables, n: nat)
    requires Core(g, t) && HeaderReserved(g, t) && n <= FreePages(g, t)
    ensures DistinctPpas(ReserveAll(g, t, n).1) && AvoidsHeader(ReserveAll(g, t, n).1)
    ensures HeaderReserved(g, ReserveAll(g, t, n).0)
  {
    hide Reserve, Core, FreePages, HeaderReserved, IsHeader;
    ReserveAllTakesFresh(g, t, n);
    FreshAvoidsHeader(g, t, ReserveAll(g, t, n).0, ReserveAll(g, t, n).1);
    if n > 0 {
      ReserveAllAvoidsHeader(g, t, n - 1);
      ReserveAllLast(g, t, n - 1);
      ReserveKeepsHeader(g, ReserveAll(g, t, n - 1).0);
    }
  }

  lemma FreshAvoidsHeader(g: Geometry, t: Tables, t': Tables, ppas: seq<Ppa>)
    requires Core(g, t') && HeaderReserved(g, t) && TookFresh(g, t, t', ppas)
    ensures DistinctPpas(ppas) && AvoidsHeader(ppas)
  {
  }

  lemma ReserveKeepsHeader(g: Geometry, t: Tables)
    requires Core(g, t) && HeaderReserved(g, t) && HasRoom(g, t)
    ensures HeaderReserved(g, Reserve(g, t).0)
  {
    hide GetFree;
    ReserveKeepsCore(g, t);
    TakeKeepsLog(g, t, INVALID_PPA);
  }

  /** The firmware reserves the first header page only. On a medium with a single plane the very first logical page
      written goes to the second header page, and the next shutdown replaces it. */
  lemma FirstWriteOnHeader(blocks: nat, pages: nat, lpns: nat, l: nat)
    requires 1 <= blocks <= MAX_BLOCKS && 2 <= pages <= MAX_PAGES_PER_BLOCK && l < lpns <= FREE_PPA
    ensures var g := Geometry(1, 1, 1, blocks, pages);
            && Core(g, NewMedia(g, lpns, 1)) && HasRoom(g, NewMedia(g, lpns, 1))
            && MakeMapping(g, NewMedia(g, lpns, 1), l).1 == HeaderPpa(1)
  {
    hide GetFree, Core;
    FirstPageTaken(blocks, pages, lpns);
  }

  /** Nor are the tables safe there: at a shutdown of that medium the first page of the tables itself is set aside on
      the second header page, so the configuration record overwrites it and the restore reads back a piece of the
      record. */
  lemma FirstStoreOnHeader(blocks: nat, pages: nat, lpns: nat, flash: map<Ppa, seq<Byte>>, section: seq<Byte>,
          buffer: seq<Byte>, pageSize: nat)
    requires 1 <= blocks <= MAX_BLOCKS && 3 <= pages <= MAX_PAGES_PER_BLOCK && lpns <= FREE_PPA
    requires 0 < pageSize && 0 < |section| <= pageSize
    ensures var g, t := Geometry(1, 1, 1, blocks, pages), NewMedia(Geometry(1, 1, 1, blocks, pages), lpns, 1);
            && Core(g, t) && 1 <= FreePages(g, t) && UsedPages(|section|, pageSize) == 1
            && var ppas := ReserveAll(g, t, 1).1;
               && ppas == [HeaderPpa(1)]
               && Stored(flash, ppas, section, buffer, pageSize)[HeaderPpa(1)] == PageAtIndex(buffer, pageSize, 1)
               && (Restores(flash, ppas, section, buffer, pageSize)
                   <==> section == PageAtIndex(buffer, pageSize, 1)[..|section|])
  {
    hide PageAtIndex, Reserve, NewMedia, GetFree, FreePages, Core, UsedPages, Quotient, Digit, Joined;
    var g := Geometry(1, 1, 1, blocks, pages);
    var t := NewMedia(g, lpns, 1);
    FirstPageTaken(blocks, pages, lpns);
    ReserveAllLast(g, t, 0);
    NothingReserved(g, t);
    var ppas := ReserveAll(g, t, 1).1;
    OnePage(|section|, pageSize);
    StoredPage(flash, ppas, section, buffer, pageSize, 0);
    StoredPagesThere(flash, ppas, section, buffer, pageSize);
    IsHeaderIs(ppas[0]);
    var f := Stored(flash, ppas, section, buffer, pageSize);
    assert ppas[..1] == ppas;
    OnePageLoaded(f, ppas, pageSize, |section|);
  }

  // The first page allocated on that medium.
  lemma FirstPageTaken(blocks: nat, pages: nat, lpns: nat)
    requires 1 <= blocks <= MAX_BLOCKS && 2 <= pages <= MAX_PAGES_PER_BLOCK && lpns <= FREE_PPA
    ensures var g, t := Geometry(1, 1, 1, blocks, pages), NewMedia(Geometry(1, 1, 1, blocks, pages), lpns, 1);
            && Core(g, t) && HasRoom(g, t) && 1 <= FreePages(g, t)
            && GetFree(g, t).p == HeaderPpa(1) == Reserve(g, t).1
  {
    var g := Geometry(1, 1, 1, blocks, pages);
    var t := NewMedia(g, lpns, 1);
    NewMediaCore(g, lpns, 1);
    assert t.cursor[PlaneId(0, 0, 0)] == Ppa(0, 0, 0, 0, 1);
    assert !Full(g, t.cursor[PlaneId(0, 0, 0)]);
    GetFreeStep(g, t);
    RoomIffFreePage(g, t);
  }

  lemma OnePage(size: nat, pageSize: nat)
    requires 0 < size <= pageSize
    ensures UsedPages(size, pageSize) == 1
  {
    if size == pageSize { DivMod(1, 0, pageSize); } else { DivMod(0, size, pageSize); }
  }

  lemma OnePageLoaded(flash: map<Ppa, seq<Byte>>, ppas: seq<Ppa>, pageSize: nat, size: nat)
    requires 0 < size <= pageSize && |ppas| == 1 && UsedPages(size, pageSize) == 1 && PagesThere(flash, ppas, pageSize)
    ensures LoadedBytes(flash, ppas, pageSize, size) == flash[ppas[0]][..size]
  {
    hide UsedPages;
    forall k | 0 <= k < size ensures LoadedBytes(flash, ppas, pageSize, size)[k] == flash[ppas[0]][k] {
      DivMod(0, k, pageSize);
    }
  }

  // ---- The store and restore loops --------------------------------------------------------------------------

  /** The first loop of store_mapping_tables. */
  method AllocateTablePages(ftl: Ftl, n: nat) returns (ppas: seq<Ppa>)
    requires ftl.Valid() && n <= FreePages(ftl.g, ftl.View())
    modifies ftl.Repr()
    ensures ftl.Valid() && (ftl.View(), ppas) == ReserveAll(ftl.g, old(ftl.View()), n)
  {
    hide Reserve, ReserveAll, Core, FreePages;
    ghost var t := ftl.View();
    CoreOf(ftl);
    ppas := [];
    NothingReserved(ftl.g, t);
    for i := 0 to n
      invariant ftl.Shaped() && (ftl.View(), ppas) == ReserveAll(ftl.g, t, i)
    {
      ReserveAllLast(ftl.g, t, i);
      ReserveIs(ftl.g, ftl.View());
      ReadyToMap(ftl);
      var freePage := ftl.GetFreePpa();
      ftl.MarkStale(freePage);
      ppas := ppas + [freePage];
    }
    ReadyToMap(ftl);
  }

  lemma CoreOf(ftl: Ftl)
    requires ftl.Valid()
    ensures ftl.Shaped() && Core(ftl.g, ftl.View())
  {
  }

  lemma NothingReserved(g: Geometry, t: Tables)
    requires Core(g, t)
    ensures ReserveAll(g, t, 0) == (t, [])
  {
  }

  lemma ReserveIs(g: Geometry, t: Tables)
    requires Core(g, t) && HasRoom(g, t)
    ensures exists p :: InRange(g, p) && t.ppa[p] == FREE_PPA
    ensures var a := GetFree(g, t);
            && BlockOf(a.p) in a.t.blk
            && Reserve(g, t) ==
              (a.t.(ppa := a.t.ppa[a.p := INVALID_PPA],
                blk := DecValid(IncInvalid(a.t.blk, BlockOf(a.p)), BlockOf(a.p))), a.p)
  {
    RoomIffFreePage(g, t);
  }

  // memcpy8 and memset8 on a byte buffer.
  method CopyBytes(buffer: array<Byte>, at: nat, bytes: seq<Byte>)
    requires at + |bytes| <= buffer.Length
    modifies buffer
    ensures buffer[..] == old(buffer[..])[..at] + bytes + old(buffer[..])[at + |bytes|..]
  {
    for i := 0 to |bytes|
      invariant buffer[..at] == old(buffer[..])[..at] && buffer[at..at + i] == bytes[..i]
      invariant buffer[at + i..] == old(buffer[..])[at + i..]
    {
      buffer[at + i] := bytes[i];
    }
    assert buffer[..] == buffer[..at] + buffer[at..at + |bytes|] + buffer[at + |bytes|..];
  }

  /** The second loop of store_mapping_tables: the section goes out a page at a time through the buffer. */
  method WriteTables(nand: Nand<seq<Byte>>, ppas: seq<Ppa>, section: seq<Byte>, pageSize: nat, buffer: array<Byte>)
    requires 0 < pageSize <= buffer.Length && UsedPages(|section|, pageSize) <= |ppas| && (nand as object) != buffer
    modifies nand, buffer
    ensures nand.flash == WriteTablePages(old(nand.flash), ppas, section, pageSize, UsedPages(|section|, pageSize))
  {
    hide PageAtIndex, WriteTablePages, UsedPages;
    ghost var flash0 := nand.flash;
    var bytesRemaining, addr, pgIndex := |section|, 0, 0;
    NothingWritten(flash0, ppas, section, pageSize);
    while bytesRemaining > 0
      invariant bytesRemaining >= 0 && addr == |section| - bytesRemaining
      invariant WrittenTo(|section|, pageSize, pgIndex, addr)
      invariant nand.flash == WriteTablePages(flash0, ppas, section, pageSize, pgIndex)
      decreases bytesRemaining
    {
      NextTablePage(|section|, pageSize, pgIndex, addr);
      var len := if bytesRemaining < pageSize then bytesRemaining else pageSize;
      WriteTablePage(nand, ppas[pgIndex], section, pageSize, addr, len, pgIndex, buffer);
      OnePageMore(flash0, ppas, section, pageSize, pgIndex);
      bytesRemaining := bytesRemaining - len;
      addr := addr + len;
      pgIndex := pgIndex + 1;
    }
  }

  lemma NothingWritten(flash: map<Ppa, seq<Byte>>, ppas: seq<Ppa>, section: seq<Byte>, pageSize: nat)
    requires 0 < pageSize
    ensures WriteTablePages(flash, ppas, section, pageSize, 0) == flash
    ensures WrittenTo(|section|, pageSize, 0, 0)
  {
    UsedPagesBounds(|section|, pageSize);
    assert 0 * pageSize == 0;
    if |section| == 0 { DivMod(0, 0, pageSize); }
  }

  lemma OnePageMore(flash: map<Ppa, seq<Byte>>, ppas: seq<Ppa>, section: seq<Byte>, pageSize: nat, k: nat)
    requires k < |ppas|
    ensures WriteTablePages(flash, ppas, section, pageSize, k + 1)
            == WriteTablePages(flash, ppas, section, pageSize, k)[ppas[k] := PageAtIndex(section, pageSize, k)]
  {
  }

  // One turn of the loop: a short last page is filled up with zeros.
  method WriteTablePage(nand: Nand<seq<Byte>>, ppa: Ppa, section: seq<Byte>, pageSize: nat, addr: nat, len: nat,
          pgIndex: nat, buffer: array<Byte>)
    requires 0 < pageSize <= buffer.Length && addr + len <= |section| && addr == pgIndex * pageSize
    requires (nand as object) != buffer
    requires len == if |section| - addr < pageSize then |section| - addr else pageSize
    modifies nand, buffer
    ensures nand.flash == old(nand.flash)[ppa := PageAtIndex(section, pageSize, pgIndex)]
  {
    if len < pageSize {
      CopyBytes(buffer, len, seq(pageSize - len, _ => 0));
    }
    CopyBytes(buffer, 0, section[addr..addr + len]);
    assert buffer[..pageSize] == PageAtIndex(section, pageSize, pgIndex);
    var page := buffer[..pageSize];
    var ram := new seq<Byte>[1](_ => page);
    OneProgrammed(nand.flash, ppa, ram[..]);
    nand.SyncProgram(AddOpPage([], ppa, 0), ram);
  }

  // After pgIndex pages, addr bytes have been written.
  predicate WrittenTo(size: nat, pageSize: nat, pgIndex: nat, addr: nat)
    requires 0 < pageSize
  {
    && addr <= size && pgIndex <= UsedPages(size, pageSize)
    && (addr < size ==> addr == pgIndex * pageSize && pgIndex < UsedPages(size, pageSize))
    && (addr == size ==> pgIndex == UsedPages(size, pageSize))
  }

  lemma NextTablePage(size: nat, pageSize: nat, pgIndex: nat, addr: nat)
    requires 0 < pageSize && WrittenTo(size, pageSize, pgIndex, addr) && addr < size
    ensures addr == pgIndex * pageSize && pgIndex < UsedPages(size, pageSize)
    ensures WrittenTo(size, pageSize, pgIndex + 1, if size - addr < pageSize then size else addr + pageSize)
  {
    UsedPagesBounds(size, pageSize);
    var n := UsedPages(size, pageSize);
    assert (pgIndex + 1) * pageSize == pgIndex * pageSize + pageSize;
    if pgIndex + 1 < n { MulMono(pgIndex + 1, n - 1, pageSize); }
    if pgIndex + 1 == n { assert size <= n * pageSize; }
  }

  lemma OneProgrammed(flash: map<Ppa, seq<Byte>>, p: Ppa, ram: seq<seq<Byte>>)
    requires |ram| == 1
    ensures SlotsIn(AddOpPage([], p, 0), 1) && Program(flash, AddOpPage([], p, 0), ram) == flash[p := ram[0]]
  {
    assert [PageOp(p, 0)][..0] == [];
  }

  /** The header: the configuration record over the start of the buffer, three pages in one operation. */
  method WriteHeader(nand: Nand<seq<Byte>>, config: Config, pageSize: nat, buffer: array<Byte>)
    requires PageSizeFits(pageSize) && 3 * pageSize <= buffer.Length && ConfigFits(config)
    modifies nand, buffer
    ensures buffer[..CONFIG_SIZE] == Encode(config)
    ensures nand.flash == WriteHeaderPages(old(nand.flash), buffer[..3 * pageSize], pageSize)
  {
    hide Encode;
    CopyBytes(buffer, 0, Encode(config));
    var ram := new seq<Byte>[3](i requires 0 <= i < 3 reads buffer => PageAtIndex(buffer[..3 * pageSize], pageSize, i));
    var op := AddOpPage(AddOpPage(AddOpPage([], HeaderPpa(0), 0), HeaderPpa(1), 1), HeaderPpa(2), 2);
    HeaderProgrammed(nand.flash, ram[..]);
    nand.SyncProgram(op, ram);
  }

  lemma HeaderProgrammed(flash: map<Ppa, seq<Byte>>, ram: seq<seq<Byte>>)
    requires |ram| == 3
    ensures var op := AddOpPage(AddOpPage(AddOpPage([], HeaderPpa(0), 0), HeaderPpa(1), 1), HeaderPpa(2), 2);
            && SlotsIn(op, 3)
            && Program(flash, op, ram) == flash[HeaderPpa(0) := ram[0]][HeaderPpa(1) := ram[1]][HeaderPpa(2) := ram[2]]
  {
    hide *;
    NoneProgrammed(flash, ram);
    OneAdded(flash, [], HeaderPpa(0), 0, ram);
    var op1 := AddOpPage([], HeaderPpa(0), 0);
    OneAdded(flash, op1, HeaderPpa(1), 1, ram);
    OneAdded(flash, AddOpPage(op1, HeaderPpa(1), 1), HeaderPpa(2), 2, ram);
  }

  lemma OneAdded(flash: map<Ppa, seq<Byte>>, op: seq<PageOp>, p: Ppa, slot: nat, ram: seq<seq<Byte>>)
    requires SlotsIn(op, |ram|) && slot < |ram| && |op| < 3
    ensures SlotsIn(AddOpPage(op, p, slot), |ram|) && |AddOpPage(op, p, slot)| == |op| + 1
    ensures Program(flash, AddOpPage(op, p, slot), ram) == Program(flash, op, ram)[p := ram[slot]]
  {
    hide Program;
    ProgramOneMore(flash, op, PageOp(p, slot), ram);
  }

  lemma NoneProgrammed(flash: map<Ppa, seq<Byte>>, ram: seq<seq<Byte>>)
    ensures SlotsIn([], |ram|) && Program(flash, [], ram) == flash
  {
  }

  lemma ProgramOneMore(flash: map<Ppa, seq<Byte>>, op: seq<PageOp>, last: PageOp, ram: seq<seq<Byte>>)
    requires SlotsIn(op, |ram|) && last.slot < |ram|
    ensures SlotsIn(op + [last], |ram|)
    ensures Program(flash, op + [last], ram) == Program(flash, op, ram)[last.ppa := ram[last.slot]]
  {
    assert (op + [last])[..|op|] == op;
  }

  // The read operation for k pages from page idx of the list, into the first k slots.
  function ChunkOp(ppas: seq<Ppa>, idx: nat, k: nat): seq<PageOp>
    requires idx + k <= |ppas|
  {
    seq(k, i requires 0 <= i < k => PageOp(ppas[idx + i], i))
  }

  lemma ChunkOpNext(ppas: seq<Ppa>, idx: nat, k: nat)
    requires idx + k < |ppas| && k < MAX_OP_PAGES
    ensures ChunkOp(ppas, idx, 0) == []
    ensures AddOpPage(ChunkOp(ppas, idx, k), ppas[idx + k], k) == ChunkOp(ppas, idx, k + 1)
  {
  }

  lemma ChunkRead(flash: map<Ppa, seq<Byte>>, ppas: seq<Ppa>, idx: nat, k: nat, slots: seq<seq<Byte>>, pageSize: nat)
    requires idx + k <= |ppas| && k <= |slots| && PagesThere(flash, ppas, pageSize)
    ensures SlotsIn(ChunkOp(ppas, idx, k), |slots|) && PagesIn(ChunkOp(ppas, idx, k), flash)
    ensures forall i | 0 <= i < k :: ReadInto(flash, ChunkOp(ppas, idx, k), slots)[i] == flash[ppas[idx + i]]
    ensures WholePages(ReadInto(flash, ChunkOp(ppas, idx, k), slots)[..k], pageSize)
  {
    hide ChunkOp, ReadInto, SlotsIn, DistinctSlots, PagesIn;
    var op := ChunkOp(ppas, idx, k);
    ChunkOpShape(flash, ppas, idx, k, |slots|);
    ReadIntoAt(flash, op, slots);
    forall i | 0 <= i < k ensures ReadInto(flash, op, slots)[i] == flash[ppas[idx + i]] {
      assert op[i] == PageOp(ppas[idx + i], i);
    }
  }

  lemma ChunkOpShape(flash: map<Ppa, seq<Byte>>, ppas: seq<Ppa>, idx: nat, k: nat, slots: nat)
    requires idx + k <= |ppas| && k <= slots && forall i | 0 <= i < |ppas| :: ppas[i] in flash
    ensures |ChunkOp(ppas, idx, k)| == k && forall i | 0 <= i < k ::
      ChunkOp(ppas, idx, k)[i] == PageOp(ppas[idx + i], i)
    ensures SlotsIn(ChunkOp(ppas, idx, k), slots) && DistinctSlots(ChunkOp(ppas, idx, k))
    ensures PagesIn(ChunkOp(ppas, idx, k), flash)
  {
  }

  // The bytes of a chunk are the bytes of the whole list from the chunk's first page on.
  lemma ChunkBytes(all: seq<seq<Byte>>, idx: nat, pages: seq<seq<Byte>>, pageSize: nat, len: nat)
    requires 0 < pageSize && WholePages(all, pageSize) && WholePages(pages, pageSize)
    requires idx + |pages| <= |all| && (forall i | 0 <= i < |pages| :: pages[i] == all[idx + i])
    requires len <= |pages| * pageSize
    ensures idx * pageSize + len <= |all| * pageSize
    ensures Joined(all, pageSize)[idx * pageSize..idx * pageSize + len] == Joined(pages, pageSize)[..len]
  {
    hide *;
    MulMono(idx + |pages|, |all|, pageSize);
    Distribute(idx, |pages|, pageSize);
    var from := idx * pageSize;
    forall k | 0 <= k < len ensures Joined(all, pageSize)[from + k] == Joined(pages, pageSize)[k] {
      ChunkByte(all, idx, pages, pageSize, k);
    }
    SliceIs(Joined(all, pageSize), from, Joined(pages, pageSize), len);
  }

  lemma ChunkByte(all: seq<seq<Byte>>, idx: nat, pages: seq<seq<Byte>>, pageSize: nat, k: nat)
    requires 0 < pageSize && WholePages(all, pageSize) && WholePages(pages, pageSize)
    requires idx + |pages| <= |all| && (forall i | 0 <= i < |pages| :: pages[i] == all[idx + i])
    requires k < |pages| * pageSize && idx * pageSize + k < |all| * pageSize
    ensures Joined(all, pageSize)[idx * pageSize + k] == Joined(pages, pageSize)[k]
  {
    hide Quotient, Digit;
    IndexInPages(k, |pages|, pageSize);
    var i, j := Quotient(k, pageSize), Digit(k, pageSize);
    Distribute(idx, i, pageSize);
    DivMod(idx + i, j, pageSize);
    assert pages[i] == all[idx + i];
  }

  lemma SliceIs(a: seq<Byte>, from: nat, b: seq<Byte>, len: nat)
    requires from + len <= |a| && len <= |b| && forall k | 0 <= k < len :: a[from + k] == b[k]
    ensures a[from..from + len] == b[..len]
  {
  }

  /** restore_mapping_tables, first half: the configuration from the three header pages. */
  method ReadHeader(nand: Nand<seq<Byte>>, pageSize: nat, loadBuffer: array<seq<Byte>>) returns (config: Config)
    requires PageSizeFits(pageSize) && HeaderThere(nand.flash, pageSize) && 3 <= loadBuffer.Length
    requires (nand as object) != loadBuffer
    modifies loadBuffer
    ensures nand.flash == old(nand.flash) && config == LoadedConfig(nand.flash, pageSize)
  {
    hide Decode, Joined;
    var header := [HeaderPpa(0), HeaderPpa(1), HeaderPpa(2)];
    var op := AddOpPage(AddOpPage(AddOpPage([], header[0], 0), header[1], 1), header[2], 2);
    assert op == ChunkOp(header, 0, 3);
    ChunkRead(nand.flash, header, 0, 3, loadBuffer[..], pageSize);
    nand.SyncRead(op, loadBuffer);
    assert loadBuffer[..3] == [nand.flash[header[0]], nand.flash[header[1]], nand.flash[header[2]]];
    config := Decode(Joined(loadBuffer[..3], pageSize)[..CONFIG_SIZE]);
  }

  /** restore_mapping_tables, second half: the section comes back in chunks of 64 KB, which consume the page list in
      order; the result is the list's bytes. */
  method ReadTables(nand: Nand<seq<Byte>>, ppas: seq<Ppa>, pageSize: nat, loadBuffer: array<seq<Byte>>,
          section: array<Byte>)
    requires PageSizeFits(pageSize) && 512 <= pageSize && loadBuffer.Length == Quotient(LOAD_BUFFER_SIZE, pageSize)
    requires UsedPages(section.Length, pageSize) <= |ppas| && PagesThere(nand.flash, ppas, pageSize)
    requires (nand as object) != loadBuffer && (nand as object) != section && (loadBuffer as object) != section
    modifies loadBuffer, section
    ensures nand.flash == old(nand.flash) && section[..] == LoadedBytes(nand.flash, ppas, pageSize, section.Length)
  {
    ghost var goal := LoadedBytes(nand.flash, ppas, pageSize, section.Length);
    var bytesRemaining, addr, pgIndex := section.Length, 0, 0;
    hide LoadedBytes, Joined, UsedPages, Quotient, Digit, PagesThere, PageSizeFits;
    NothingLoaded(section.Length, pageSize);
    while bytesRemaining > 0
      invariant bytesRemaining >= 0 && addr == section.Length - bytesRemaining && nand.flash == old(nand.flash)
      invariant LoadedTo(section.Length, pageSize, pgIndex, addr)
      invariant section[..addr] == goal[..addr]
      decreases bytesRemaining
    {
      var len, count := ChunkSize(bytesRemaining, pageSize);
      NextChunk(section.Length, pageSize, pgIndex, addr, len, count);
      bytesRemaining := bytesRemaining - len;
      ReadChunk(nand, ppas, pgIndex, count, pageSize, loadBuffer);
      var bytes := Joined(loadBuffer[..count], pageSize)[..len];
      ChunkIsGoal(nand.flash, ppas, pageSize, section.Length, pgIndex, addr, loadBuffer[..count], len);
      ghost var before := section[..];
      CopyBytes(section, addr, bytes);
      assert section[..addr + len] == before[..addr] + bytes;
      pgIndex := pgIndex + count;
      addr := addr + len;
    }
    assert section[..addr] == section[..];
  }

  // Bytes and pages of the next chunk.
  method ChunkSize(bytesRemaining: nat, pageSize: nat) returns (len: nat, count: nat)
    requires 0 < pageSize && LOAD_BUFFER_SIZE % pageSize == 0 && 0 < bytesRemaining
    ensures if bytesRemaining < LOAD_BUFFER_SIZE then len == bytesRemaining
      && count == UsedPages(bytesRemaining, pageSize)
            else len == LOAD_BUFFER_SIZE && count == Quotient(LOAD_BUFFER_SIZE, pageSize)
  {
    if bytesRemaining < LOAD_BUFFER_SIZE {
      len := bytesRemaining;
      count := bytesRemaining / pageSize;
      var p := count * pageSize;
      if p < bytesRemaining {
        count := count + 1;
      }
    } else {
      len := LOAD_BUFFER_SIZE;
      count := LOAD_BUFFER_SIZE / pageSize;
    }
  }

  method ReadChunk(nand: Nand<seq<Byte>>, ppas: seq<Ppa>, pgIndex: nat, count: nat, pageSize: nat,
          loadBuffer: array<seq<Byte>>)
    requires pgIndex + count <= |ppas| && count <= loadBuffer.Length && count <= MAX_OP_PAGES
    requires PagesThere(nand.flash, ppas, pageSize) && (nand as object) != loadBuffer
    modifies loadBuffer
    ensures nand.flash == old(nand.flash) && WholePages(loadBuffer[..count], pageSize)
    ensures forall i | 0 <= i < count ::
              ppas[pgIndex + i] in nand.flash && loadBuffer[i] == nand.flash[ppas[pgIndex + i]]
  {
    var op: seq<PageOp> := [];
    for i := 0 to count
      invariant op == ChunkOp(ppas, pgIndex, i) && loadBuffer[..] == old(loadBuffer[..])
    {
      ChunkOpNext(ppas, pgIndex, i);
      op := AddOpPage(op, ppas[pgIndex + i], i);
    }
    ChunkRead(nand.flash, ppas, pgIndex, count, loadBuffer[..], pageSize);
    nand.SyncRead(op, loadBuffer);
  }

  // After pgIndex pages of the list, addr bytes have been loaded.
  predicate LoadedTo(size: nat, pageSize: nat, pgIndex: nat, addr: nat)
    requires 0 < pageSize
  {
    addr <= size && (addr < size ==> addr == pgIndex * pageSize)
  }

  lemma NothingLoaded(size: nat, pageSize: nat)
    requires PageSizeFits(pageSize)
    ensures 0 < pageSize && LOAD_BUFFER_SIZE % pageSize == 0 && LoadedTo(size, pageSize, 0, 0)
    ensures 512 <= pageSize ==> Quotient(LOAD_BUFFER_SIZE, pageSize) <= MAX_OP_PAGES
  {
    assert 0 * pageSize == 0;
    ChunkFitsOperation(pageSize);
  }

  lemma NextChunk(size: nat, pageSize: nat, pgIndex: nat, addr: nat, len: nat, count: nat)
    requires 0 < pageSize && LOAD_BUFFER_SIZE % pageSize == 0 && LoadedTo(size, pageSize, pgIndex, addr) && addr < size
    requires if size - addr < LOAD_BUFFER_SIZE then len == size - addr && count == UsedPages(size - addr, pageSize)
             else len == LOAD_BUFFER_SIZE && count == Quotient(LOAD_BUFFER_SIZE, pageSize)
    ensures addr == pgIndex * pageSize && len <= count * pageSize && 0 < len && addr + len <= size
    ensures pgIndex + count <= UsedPages(size, pageSize) && count <= Quotient(LOAD_BUFFER_SIZE, pageSize)
    ensures LoadedTo(size, pageSize, pgIndex + count, addr + len)
  {
    var c, n := Quotient(LOAD_BUFFER_SIZE, pageSize), UsedPages(size, pageSize);
    assert c * pageSize == LOAD_BUFFER_SIZE;
    UsedPagesBounds(size, pageSize);
    UsedPagesBounds(size - addr, pageSize);
    hide UsedPages, Quotient;
    assert 0 < count && (count - 1) * pageSize < size - addr && (count - 1) * pageSize < LOAD_BUFFER_SIZE by {
      OneLess(count, pageSize);
    }
    MulOrder(count - 1, c, pageSize);
    Distribute(pgIndex, count - 1, pageSize);
    MulOrder(pgIndex + (count - 1), n, pageSize);
    Distribute(pgIndex, count, pageSize);
  }

  lemma OneLess(n: nat, c: nat)
    ensures 0 < n ==> (n - 1) * c == n * c - c
  {
  }

  lemma Distribute(a: nat, b: nat, c: nat)
    ensures (a + b) * c == a * c + b * c
  {
  }

  lemma ChunkIsGoal(flash: map<Ppa, seq<Byte>>, ppas: seq<Ppa>, pageSize: nat, size: nat, pgIndex: nat, addr: nat,
          pages: seq<seq<Byte>>, len: nat)
    requires 0 < pageSize && UsedPages(size, pageSize) <= |ppas| && PagesThere(flash, ppas, pageSize)
    requires addr == pgIndex * pageSize && addr + len <= size && pgIndex + |pages| <= UsedPages(size, pageSize)
    requires WholePages(pages, pageSize) && len <= |pages| * pageSize
    requires forall i | 0 <= i < |pages| :: ppas[pgIndex + i] in flash && pages[i] == flash[ppas[pgIndex + i]]
    ensures Joined(pages, pageSize)[..len] == LoadedBytes(flash, ppas, pageSize, size)[addr..addr + len]
  {
    hide *;
    var all := LoadedIs(flash, ppas, pageSize, size);
    forall i | 0 <= i < |pages| ensures pages[i] == all[pgIndex + i] {}
    ChunkBytes(all, pgIndex, pages, pageSize, len);
    SliceOfPrefix(Joined(all, pageSize), size, addr, addr + len);
  }

  lemma LoadedIs(flash: map<Ppa, seq<Byte>>, ppas: seq<Ppa>, pageSize: nat, size: nat) returns (all: seq<seq<Byte>>)
    requires 0 < pageSize && UsedPages(size, pageSize) <= |ppas| && PagesThere(flash, ppas, pageSize)
    ensures |all| == UsedPages(size, pageSize) && WholePages(all, pageSize) && size <= |all| * pageSize
    ensures forall i | 0 <= i < |all| :: ppas[i] in flash && all[i] == flash[ppas[i]]
    ensures LoadedBytes(flash, ppas, pageSize, size) == Joined(all, pageSize)[..size]
  {
    hide Joined, UsedPages;
    UsedPagesBounds(size, pageSize);
    all := ContentsOf(flash, ppas, UsedPages(size, pageSize));
  }

  lemma SliceOfPrefix(s: seq<Byte>, size: nat, from: nat, to: nat)
    requires from <= to <= size <= |s|
    ensures s[..size][from..to] == s[from..to]
  {
  }
}
