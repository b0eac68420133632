/** The medium over its whole life: flushes, and shutdowns each followed by a start from what the flash then holds. */
module TableLifetime {
  import opened Wrappers
  import opened Geometry
  import opened MappingTables
  import opened EqualPages
  import opened TableStore

  type Flash = map<Ppa, seq<Byte>>

  /** The medium's fixed parts; `load` gives the tables that the memory section and the configuration record stand
      for. */
  datatype Firmware = Firmware(g: Geometry, pageSize: nat, load: (seq<Byte>, Config) -> Tables)

  /** A flush of the write-back cache, or a shutdown and the next start: the memory section with the tables, the
      configuration record, and the buffer from which the header pages are written. */
  datatype Act =
    | Flush(batch: seq<PageWrite<seq<Byte>>>)
    | Shutdown(section: seq<Byte>, config: Config, buffer: seq<Byte>)

  // The tables and table pages when the store begins to write.
  ghost function SetAside(k: Firmware, t: Tables, section: seq<Byte>): (r: (Tables, seq<Ppa>))
    requires Core(k.g, t) && 0 < k.pageSize && TablePages(|section|, k.pageSize) <= FreePages(k.g, t)
    ensures |r.1| == TablePages(|section|, k.pageSize) && UsedPages(|section|, k.pageSize) <= |r.1|
  {
    UsedPagesBounds(|section|, k.pageSize);
    ReserveAll(k.g, t, TablePages(|section|, k.pageSize))
  }

  ghost predicate Ready(k: Firmware, m: Media<seq<Byte>>) {
    Sound(k.g, m) && HeaderReserved(k.g, m.t) && PageSizeFits(k.pageSize)
  }

  /** At a shutdown there are FREE pages for the tables, the record lists them, and section and record stand for the
      tables as they are once the pages are set aside. */
  ghost predicate Possible(k: Firmware, m: Media<seq<Byte>>, a: Act)
    requires Ready(k, m)
  {
    match a
    case Flush(batch) => LpnsIn(batch, |m.t.lpa|) && |batch| <= FreePages(k.g, m.t)
    case Shutdown(section, config, buffer) =>
      && TablePages(|section|, k.pageSize) <= FreePages(k.g, m.t)
      && TablePages(|section|, k.pageSize) <= MAX_TABLE_PAGES
      && ConfigFits(config) && CONFIG_SIZE <= |buffer| && buffer[..CONFIG_SIZE] == Encode(config)
      && var (t', ppas) := SetAside(k, m.t, section);
         ppas == config.ppas[1..1 + |ppas|] && k.load(section, config) == PowerCycle(t')
  }

  // The flash when the power goes off.
  ghost function OffFlash(k: Firmware, m: Media<seq<Byte>>, a: Act): Flash
    requires Ready(k, m) && Possible(k, m, a) && a.Shutdown?
  {
    Stored(m.flash, SetAside(k, m.t, a.section).1, a.section, a.buffer, k.pageSize)
  }

  /** One shutdown and start gives back the record, the section, and with them the tables. */
  lemma ShutdownThenStart(k: Firmware, m: Media<seq<Byte>>, a: Act)
    requires Ready(k, m) && Possible(k, m, a) && a.Shutdown?
    ensures var f := OffFlash(k, m, a);
            && HeaderThere(f, k.pageSize) && LoadedConfig(f, k.pageSize) == a.config
            && ListedPagesThere(f, a.config, k.pageSize, |a.section|)
            && ListedBytes(f, a.config, k.pageSize, |a.section|) == a.section
  {
    hide Encode, Decode, LoadedConfig, LoadedBytes, Stored, Reserve, Core, FreePages, PagesThere, HeaderThere, IsHeader;
    hide UsedPages, TablePages, ReserveAll, HeaderReserved;
    var ppas := SetAside(k, m.t, a.section).1;
    ReserveAllAvoidsHeader(k.g, m.t, TablePages(|a.section|, k.pageSize));
    StoreThenRestore(m.flash, ppas, a.section, a.buffer, k.pageSize, a.config);
  }

  // The pages of the record's list that hold a section of this size, and their bytes.
  predicate ListedPagesThere(f: Flash, c: Config, pageSize: nat, size: nat)
    requires 0 < pageSize
  {
    && 1 + UsedPages(size, pageSize) <= |c.ppas|
    && PagesThere(f, c.ppas[1..1 + UsedPages(size, pageSize)], pageSize)
  }

  function ListedBytes(f: Flash, c: Config, pageSize: nat, size: nat): (b: seq<Byte>)
    requires 0 < pageSize && ListedPagesThere(f, c, pageSize, size)
    ensures |b| == size
  {
    LoadedBytes(f, c.ppas[1..1 + UsedPages(size, pageSize)], pageSize, size)
  }

  /** The medium after a step. After a shutdown everything comes from the flash: the record from the header pages, the
      section from the pages that record lists. */
  ghost function Next(k: Firmware, m: Media<seq<Byte>>, a: Act): Media<seq<Byte>>
    requires Ready(k, m) && Possible(k, m, a)
  {
    match a
    case Flush(batch) => WriteAll(k.g, m, batch)
    case Shutdown(section, _, _) =>
      ShutdownThenStart(k, m, a);
      var f := OffFlash(k, m, a);
      var config := LoadedConfig(f, k.pageSize);
      Media(k.load(ListedBytes(f, config, k.pageSize, |section|), config), f)
  }

  function OnDisk(disk: seq<seq<Byte>>, a: Act): (d: seq<seq<Byte>>)
    requires a.Flush? ==> LpnsIn(a.batch, |disk|)
    ensures |d| == |disk|
  {
    match a
    case Flush(batch) => FlatWrite(disk, batch)
    case Shutdown(_, _, _) => disk
  }

  // The flash pages a step programs besides the header, in order, and what it programs there.
  ghost function WrittenPages(k: Firmware, m: Media<seq<Byte>>, a: Act): seq<Ppa>
    requires Ready(k, m) && Possible(k, m, a)
  {
    match a
    case Flush(batch) => MapAll(k.g, m.t, Lpns(batch)).1
    case Shutdown(section, _, _) => SetAside(k, m.t, section).1[..UsedPages(|section|, k.pageSize)]
  }

  function WrittenData(k: Firmware, a: Act): seq<seq<Byte>>
    requires 0 < k.pageSize
  {
    match a
    case Flush(batch) => seq(|batch|, i requires 0 <= i < |batch| => batch[i].data)
    case Shutdown(section, _, _) =>
      seq(UsedPages(|section|, k.pageSize), i requires 0 <= i => PageAtIndex(section, k.pageSize, i))
  }

  // FREE pages a step uses up: rpp_map_tables of them at a shutdown.
  function UsedUp(k: Firmware, a: Act): nat
    requires 0 < k.pageSize
  {
    match a
    case Flush(batch) => |batch|
    case Shutdown(section, _, _) => |section| / k.pageSize + 1
  }

  /** Besides the header, the pages listed hold these data and all other pages are unchanged. */
  ghost predicate HoldingBesides(before: Flash, after: Flash, ppas: seq<Ppa>, data: seq<seq<Byte>>) {
    && after.Keys == before.Keys && |ppas| == |data|
    && (forall i | 0 <= i < |ppas| :: ppas[i] in after && after[ppas[i]] == data[i])
    && (forall p | p in before && p !in ppas && !IsHeader(p) :: after[p] == before[p])
  }

  /** The header pages hold the first bytes of the last buffer they were written from. */
  predicate HeaderHolds(before: Flash, after: Flash, buffer: Option<seq<Byte>>, pageSize: nat) {
    forall i | 0 <= i < 3 ::
      HeaderPpa(i) in before && HeaderPpa(i) in after && HeaderPageIs(before, after, buffer, pageSize, i)
  }

  predicate HeaderPageIs(before: Flash, after: Flash, buffer: Option<seq<Byte>>, pageSize: nat, i: nat)
    requires HeaderPpa(i) in before && HeaderPpa(i) in after
  {
    after[HeaderPpa(i)] ==
    match buffer case Some(b) => PageAtIndex(b, pageSize, i) case None => before[HeaderPpa(i)]
  }

  function BufferOf(a: Act): Option<seq<Byte>> { if a.Shutdown? then Some(a.buffer) else None }

  // ---- One step ---------------------------------------------------------------------------------------------

  lemma {:induction false} MapAllKeepsHeader(g: Geometry, t: Tables, lpns: seq<nat>)
    requires Core(g, t) && InTable(lpns, |t.lpa|) && |lpns| <= FreePages(g, t) && HeaderReserved(g, t)
    ensures HeaderReserved(g, MapAll(g, t, lpns).0)
  {
    hide MakeMapping, Core, FreePages, HeaderReserved;
    if lpns != [] {
      var n := |lpns| - 1;
      assert lpns == lpns[..n] + [lpns[n]];
      MapAllKeepsHeader(g, t, lpns[..n]);
      MapAllLast(g, t, lpns[..n], lpns[n]);
      ReservedHeaderIsSafe(g, MapAll(g, t, lpns[..n]).0, lpns[n]);
    }
  }

  lemma FlushKeeps(k: Firmware, m: Media<seq<Byte>>, zero: seq<Byte>, batch: seq<PageWrite<seq<Byte>>>)
    requires Ready(k, m) && Possible(k, m, Flush(batch))
    ensures Ready(k, Next(k, m, Flush(batch)))
    ensures Flat(k.g, Next(k, m, Flush(batch)), zero) == OnDisk(Flat(k.g, m, zero), Flush(batch))
    ensures Writes(k, m, Flush(batch))
  {
    hide WriteAll, MapAll, FreePages, Flat, HeaderReserved, FlatWrite, Writes;
    WriteAllRefines(k.g, m, zero, batch);
    TablesOfWriteAll(k.g, m, batch);
    MapAllKeepsHeader(k.g, m.t, Lpns(batch));
    FlushWrites(k, m, batch);
  }

  /** What a step does to the flash and to the FREE pages: one FREE page is taken for each page programmed and for the
      table page that a shutdown sets aside without need when the section fills its pages; none is a header page. */
  ghost predicate Writes(k: Firmware, m: Media<seq<Byte>>, a: Act)
    requires Ready(k, m) && Possible(k, m, a)
  {
    var m', ppas := Next(k, m, a), WrittenPages(k, m, a);
    && Ready(k, m')
    && TookFresh(k.g, m.t, m'.t, ppas) && FreePages(k.g, m'.t) + UsedUp(k, a) == FreePages(k.g, m.t)
    && HoldingBesides(m.flash, m'.flash, ppas, WrittenData(k, a))
    && HeaderHolds(m.flash, m'.flash, BufferOf(a), k.pageSize)
  }

  lemma HeaderThereAlways(k: Firmware, m: Media<seq<Byte>>, i: nat)
    requires Ready(k, m) && i < 3
    ensures HeaderPpa(i) in m.flash && m.t.ppa[HeaderPpa(i)] == RESERVED_PPA
  {
  }

  lemma FlushWrites(k: Firmware, m: Media<seq<Byte>>, batch: seq<PageWrite<seq<Byte>>>)
    requires Ready(k, m) && Possible(k, m, Flush(batch)) && Ready(k, Next(k, m, Flush(batch)))
    ensures Writes(k, m, Flush(batch))
  {
    hide WriteAll, MapAll, FreePages, HeaderReserved, Placed, Logged, Inverse, IsHeader, TookFresh, PageSizeFits;
    var ppas := MapAll(k.g, m.t, Lpns(batch)).1;
    var after := Next(k, m, Flush(batch)).flash;
    BatchHolding(k.g, m, batch);
    TablesOfWriteAll(k.g, m, batch);
    MapAllTakesFreshPages(k.g, m.t, Lpns(batch));
    FreshAvoidsHeader(k.g, m.t, Next(k, m, Flush(batch)).t, ppas);
    forall i | 0 <= i < 3
      ensures HeaderPpa(i) in m.flash && HeaderPpa(i) in after && HeaderPageIs(m.flash, after, None, k.pageSize, i)
    {
      HeaderThereAlways(k, m, i);
      HeaderNotIn(ppas, i);
    }
  }

  lemma HeaderNotIn(ppas: seq<Ppa>, i: nat)
    requires AvoidsHeader(ppas) && i < 3
    ensures HeaderPpa(i) !in ppas
  {
    assert IsHeader(HeaderPpa(i));
  }

  lemma ShutdownIs(k: Firmware, m: Media<seq<Byte>>, a: Act)
    requires Ready(k, m) && Possible(k, m, a) && a.Shutdown?
    ensures Next(k, m, a) == Media(PowerCycle(SetAside(k, m.t, a.section).0), OffFlash(k, m, a))
  {
    hide LoadedConfig, ListedBytes, OffFlash, SetAside, PowerCycle;
    ShutdownThenStart(k, m, a);
  }

  lemma ShutdownSound(k: Firmware, m: Media<seq<Byte>>, a: Act)
    requires Ready(k, m) && Possible(k, m, a) && a.Shutdown?
    ensures Ready(k, Next(k, m, a)) && Next(k, m, a).t.lpa == m.t.lpa
    ensures Writes(k, m, a)
  {
    hide Stored, Reserve, ReserveAll, FreePages, Next, UsedPages, IsHeader, Encode, Placed, Logged, Inverse, Writes;
    var n := TablePages(|a.section|, k.pageSize);
    ShutdownIs(k, m, a);
    ReserveAllTakesFresh(k.g, m.t, n);
    ReserveAllAvoidsHeader(k.g, m.t, n);
    PowerCycleKeepsCore(k.g, m.t, n);
    StoredKeys(k.g, m.flash, SetAside(k, m.t, a.section).1, a.section, a.buffer, k.pageSize);
    ShutdownWrites(k, m, a);
  }

  lemma ShutdownWrites(k: Firmware, m: Media<seq<Byte>>, a: Act)
    requires Ready(k, m) && Possible(k, m, a) && a.Shutdown? && Ready(k, Next(k, m, a))
    ensures Writes(k, m, a)
  {
    hide Next, Stored, ReserveAll, CountKind, HeaderReserved, Placed, Logged, Inverse, IsHeader, TookFresh, Encode;
    hide UsedPages, PageAtIndex, HoldingBesides, HeaderHolds;
    var n := TablePages(|a.section|, k.pageSize);
    var ppas := SetAside(k, m.t, a.section).1;
    ShutdownIs(k, m, a);
    ReserveAllTakesFresh(k.g, m.t, n);
    FreshAtStart(k.g, m.t, SetAside(k, m.t, a.section).0, ppas, UsedPages(|a.section|, k.pageSize));
    FreshAvoidsHeader(k.g, m.t, SetAside(k, m.t, a.section).0, ppas);
    StoredHolds(k, m, a, ppas);
  }

  lemma FreshAtStart(g: Geometry, t: Tables, t': Tables, ppas: seq<Ppa>, n: nat)
    requires Core(g, t) && Core(g, t') && Core(g, PowerCycle(t')) && TookFresh(g, t, t', ppas) && n <= |ppas|
    ensures TookFresh(g, t, PowerCycle(t'), ppas[..n])
  {
  }

  lemma StoredHolds(k: Firmware, m: Media<seq<Byte>>, a: Act, ppas: seq<Ppa>)
    requires Ready(k, m) && Possible(k, m, a) && a.Shutdown? && ppas == SetAside(k, m.t, a.section).1
    requires Ready(k, Next(k, m, a)) && DistinctPpas(ppas) && AvoidsHeader(ppas)
    ensures HoldingBesides(m.flash, OffFlash(k, m, a), WrittenPages(k, m, a), WrittenData(k, a))
    ensures HeaderHolds(m.flash, OffFlash(k, m, a), BufferOf(a), k.pageSize)
  {
    hide Next, ReserveAll, FreePages, HeaderReserved, Core, IsHeader, Encode, UsedPages, PageAtIndex;
    hide WriteTablePages, WriteHeaderPages, SetAside;
    ShutdownIs(k, m, a);
    var n := UsedPages(|a.section|, k.pageSize);
    var used, f := ppas[..n], OffFlash(k, m, a);
    OnlyUsedPages(m.flash, ppas, a.section, k.pageSize, n, n);
    assert f == Stored(m.flash, used, a.section, a.buffer, k.pageSize);
    forall i | 0 <= i < n ensures used[i] in f && f[used[i]] == PageAtIndex(a.section, k.pageSize, i) {
      StoredPage(m.flash, used, a.section, a.buffer, k.pageSize, i);
      assert !IsHeader(ppas[i]);
    }
    forall p | p in m.flash && p !in used
      ensures p in f && f[p] == if IsHeader(p) then PageAtIndex(a.buffer, k.pageSize, p.page) else m.flash[p]
    {
      StoredAt(m.flash, used, a.section, a.buffer, k.pageSize, p);
    }
    forall i | 0 <= i < 3
      ensures HeaderPpa(i) in m.flash && HeaderPpa(i) in f
      ensures HeaderPageIs(m.flash, f, BufferOf(a), k.pageSize, i)
    {
      HeaderThereAlways(k, m, i);
      HeaderNotIn(ppas, i);
      IsHeaderIs(HeaderPpa(i));
    }
  }

  lemma ShutdownContent(k: Firmware, m: Media<seq<Byte>>, zero: seq<Byte>, a: Act, l: nat)
    requires Ready(k, m) && Possible(k, m, a) && a.Shutdown? && l < |m.t.lpa|
    ensures Sound(k.g, Next(k, m, a)) && Next(k, m, a).t.lpa == m.t.lpa
    ensures Content(k.g, Next(k, m, a), zero, l) == Content(k.g, m, zero, l)
  {
    hide Stored, Reserve, FreePages, PageAtIndex, IsHeader, Encode, Content, Next, UsedPages, TablePages;
    ShutdownIs(k, m, a);
    ContentAfterStore(k.g, m, zero, a.section, a.buffer, k.pageSize, l);
    ReservedHeaderIsSafe(k.g, m.t, l);
  }

  lemma ShutdownKeeps(k: Firmware, m: Media<seq<Byte>>, zero: seq<Byte>, a: Act)
    requires Ready(k, m) && Possible(k, m, a) && a.Shutdown?
    ensures Ready(k, Next(k, m, a)) && Flat(k.g, Next(k, m, a), zero) == Flat(k.g, m, zero)
    ensures Writes(k, m, a)
  {
    hide Content, Next, Possible, WrittenPages, HeaderReserved, PageSizeFits, Core, Writes;
    ShutdownSound(k, m, a);
    forall l: nat | l < |m.t.lpa| ensures Content(k.g, Next(k, m, a), zero, l) == Content(k.g, m, zero, l) {
      ShutdownContent(k, m, zero, a, l);
    }
  }

  /** Every step keeps the medium sound and its header reserved, does to the flat disk what the host asked for, and to
      the flash what Writes says. */
  lemma NextKeeps(k: Firmware, m: Media<seq<Byte>>, zero: seq<Byte>, a: Act)
    requires Ready(k, m) && Possible(k, m, a)
    ensures Ready(k, Next(k, m, a))
    ensures Flat(k.g, Next(k, m, a), zero) == OnDisk(Flat(k.g, m, zero), a)
    ensures Writes(k, m, a)
  {
    hide Content, Next, Writes, HeaderReserved, PageSizeFits, Core, Flat, FreePages;
    match a {
      case Flush(batch) => FlushKeeps(k, m, zero, batch);
      case Shutdown(_, _, _) => ShutdownKeeps(k, m, zero, a);
    }
  }

  // ---- Whole lives ------------------------------------------------------------------------------------------

  ghost predicate AllPossible(k: Firmware, m: Media<seq<Byte>>, acts: seq<Act>)
    requires Ready(k, m)
    decreases |acts|
  {
    acts != [] ==>
      Possible(k, m, acts[0]) && (NextKeeps(k, m, [], acts[0]); AllPossible(k, Next(k, m, acts[0]), acts[1..]))
  }

  ghost function Life(k: Firmware, m: Media<seq<Byte>>, acts: seq<Act>): (m': Media<seq<Byte>>)
    requires Ready(k, m) && AllPossible(k, m, acts)
    ensures Ready(k, m')
    decreases |acts|
  {
    if acts == [] then m
    else
      NextKeeps(k, m, [], acts[0]);
      Life(k, Next(k, m, acts[0]), acts[1..])
  }

  // The flash pages programmed over a life besides the header, and the data, in order.
  ghost function WrittenOver(k: Firmware, m: Media<seq<Byte>>, acts: seq<Act>): seq<Ppa>
    requires Ready(k, m) && AllPossible(k, m, acts)
    decreases |acts|
  {
    if acts == [] then []
    else
      NextKeeps(k, m, [], acts[0]);
      WrittenPages(k, m, acts[0]) + WrittenOver(k, Next(k, m, acts[0]), acts[1..])
  }

  function DataOver(k: Firmware, acts: seq<Act>): seq<seq<Byte>>
    requires 0 < k.pageSize
  {
    if acts == [] then [] else WrittenData(k, acts[0]) + DataOver(k, acts[1..])
  }

  function UsedUpOver(k: Firmware, acts: seq<Act>): nat
    requires 0 < k.pageSize
  {
    if acts == [] then 0 else UsedUp(k, acts[0]) + UsedUpOver(k, acts[1..])
  }

  function LastBuffer(acts: seq<Act>): Option<seq<Byte>> {
    if acts == [] then None
    else if LastBuffer(acts[1..]).Some? then LastBuffer(acts[1..])
    else BufferOf(acts[0])
  }

  predicate FlushesFit(acts: seq<Act>, lpns: nat) {
    acts != [] ==> (acts[0].Flush? ==> LpnsIn(acts[0].batch, lpns)) && FlushesFit(acts[1..], lpns)
  }

  // What the host has written, in order.
  ghost function DiskOver(disk: seq<seq<Byte>>, acts: seq<Act>): (d: seq<seq<Byte>>)
    requires FlushesFit(acts, |disk|)
    ensures |d| == |disk|
    decreases |acts|
  {
    if acts == [] then disk else DiskOver(OnDisk(disk, acts[0]), acts[1..])
  }

  lemma {:induction false} FlushesInTable(k: Firmware, m: Media<seq<Byte>>, acts: seq<Act>)
    requires Ready(k, m) && AllPossible(k, m, acts)
    ensures FlushesFit(acts, |m.t.lpa|)
    decreases |acts|
  {
    hide Next, HeaderReserved, PageSizeFits, Core, FreePages, LpnsIn;
    if acts != [] {
      SameSize(k, m, acts[0]);
      FlushesInTable(k, Next(k, m, acts[0]), acts[1..]);
    }
  }

  lemma SameSize(k: Firmware, m: Media<seq<Byte>>, a: Act)
    requires Ready(k, m) && Possible(k, m, a)
    ensures Ready(k, Next(k, m, a)) && |Next(k, m, a).t.lpa| == |m.t.lpa|
  {
    hide Next, Content, HeaderReserved, PageSizeFits, Core, FreePages, Writes;
    NextKeeps(k, m, [], a);
    assert |Flat(k.g, Next(k, m, a), [])| == |OnDisk(Flat(k.g, m, []), a)|;
  }

  /** From a medium whose three header pages are reserved, over any run of flushes, shutdowns and starts: the disk the
      host reads is exactly what it wrote; the pages programmed besides the header hold, in order, the data written and
      the pages of the sections stored, and nothing else on the flash has changed but the header, which holds the last
      record; none of them is programmed twice, was in use at the start, or is a header page; and FREE pages go only
      to writes and table pages. */
  lemma {:induction false} LifeRefines(k: Firmware, m: Media<seq<Byte>>, zero: seq<Byte>, acts: seq<Act>)
    requires Ready(k, m) && AllPossible(k, m, acts)
    ensures FlushesFit(acts, |m.t.lpa|)
    ensures Flat(k.g, Life(k, m, acts), zero) == DiskOver(Flat(k.g, m, zero), acts)
    ensures HoldingBesides(m.flash, Life(k, m, acts).flash, WrittenOver(k, m, acts), DataOver(k, acts))
    ensures HeaderHolds(m.flash, Life(k, m, acts).flash, LastBuffer(acts), k.pageSize)
    ensures TookFresh(k.g, m.t, Life(k, m, acts).t, WrittenOver(k, m, acts)) && AvoidsHeader(WrittenOver(k, m, acts))
    ensures FreePages(k.g, Life(k, m, acts).t) + UsedUpOver(k, acts) == FreePages(k.g, m.t)
    decreases |acts|
  {
    hide Next, Possible, WrittenPages, TookFresh, Flat, HeaderReserved, OnDisk, LpnsIn, AvoidsHeader, Core;
    hide HoldingBesides, HeaderHolds, WrittenData, UsedUp, FreePages;
    FlushesInTable(k, m, acts);
    if acts == [] {
      NothingTaken(k, m);
    } else {
      var next := Next(k, m, acts[0]);
      NextKeeps(k, m, zero, acts[0]);
      NextKeeps(k, m, [], acts[0]);
      LifeRefines(k, next, zero, acts[1..]);
      Chain(k, m, next, Life(k, m, acts), WrittenPages(k, m, acts[0]), WrittenOver(k, next, acts[1..]),
        WrittenData(k, acts[0]), DataOver(k, acts[1..]));
      HeaderChain(m.flash, next.flash, Life(k, m, acts).flash, BufferOf(acts[0]), LastBuffer(acts[1..]), k.pageSize);
    }
  }

  lemma NothingTaken(k: Firmware, m: Media<seq<Byte>>)
    requires Ready(k, m)
    ensures TookFresh(k.g, m.t, m.t, []) && AvoidsHeader([]) && HoldingBesides(m.flash, m.flash, [], [])
    ensures HeaderHolds(m.flash, m.flash, None, k.pageSize)
  {
    forall i | 0 <= i < 3 ensures HeaderPpa(i) in m.flash { HeaderThereAlways(k, m, i); }
  }

  lemma HeaderChain(f0: Flash, f1: Flash, f2: Flash, first: Option<seq<Byte>>, later: Option<seq<Byte>>, pageSize: nat)
    requires HeaderHolds(f0, f1, first, pageSize) && HeaderHolds(f1, f2, later, pageSize)
    ensures HeaderHolds(f0, f2, if later.Some? then later else first, pageSize)
  {
    hide PageAtIndex;
    forall i | 0 <= i < 3
      ensures HeaderPpa(i) in f0 && HeaderPpa(i) in f2
      ensures HeaderPageIs(f0, f2, if later.Some? then later else first, pageSize, i)
    {
      assert HeaderPageIs(f0, f1, first, pageSize, i) && HeaderPageIs(f1, f2, later, pageSize, i);
    }
  }

  lemma Chain(k: Firmware, m: Media<seq<Byte>>, m1: Media<seq<Byte>>, m2: Media<seq<Byte>>, ps: seq<Ppa>, qs: seq<Ppa>,
          a: seq<seq<Byte>>, b: seq<seq<Byte>>)
    requires Ready(k, m) && Ready(k, m1) && Ready(k, m2)
    requires TookFresh(k.g, m.t, m1.t, ps) && TookFresh(k.g, m1.t, m2.t, qs)
    requires HoldingBesides(m.flash, m1.flash, ps, a) && HoldingBesides(m1.flash, m2.flash, qs, b)
    ensures TookFresh(k.g, m.t, m2.t, ps + qs) && AvoidsHeader(ps + qs)
    ensures HoldingBesides(m.flash, m2.flash, ps + qs, a + b)
  {
    hide TookFresh, AvoidsHeader, Placed, Logged, Inverse, HoldingBesides;
    TookFreshChain(k.g, m.t, m1.t, m2.t, ps, qs);
    FreshAvoidsHeader(k.g, m.t, m2.t, ps + qs);
    HoldingBesidesChain(m.flash, m1.flash, m2.flash, ps, qs, a, b);
  }

  lemma HoldingBesidesChain(f0: Flash, f1: Flash, f2: Flash, ps: seq<Ppa>, qs: seq<Ppa>, a: seq<seq<Byte>>,
          b: seq<seq<Byte>>)
    requires HoldingBesides(f0, f1, ps, a) && HoldingBesides(f1, f2, qs, b)
    requires DistinctPpas(ps + qs) && AvoidsHeader(ps + qs)
    ensures HoldingBesides(f0, f2, ps + qs, a + b)
  {
    hide IsHeader;
    forall i | 0 <= i < |ps + qs| ensures (ps + qs)[i] in f2 && f2[(ps + qs)[i]] == (a + b)[i] {
      if i < |ps| {
        assert ps[i] in f1 && !IsHeader((ps + qs)[i]);
        forall j | 0 <= j < |qs| ensures qs[j] != ps[i] {
          assert (ps + qs)[i] != (ps + qs)[|ps| + j];
        }
      }
    }
  }
}
