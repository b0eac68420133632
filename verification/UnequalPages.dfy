/** The translation layer when a NAND page holds several host pages: a batch is grouped by NAND page, and a NAND
    page that is only partly written is read from its old place, modified and programmed in its new one. */
module UnequalPages {
  import opened Wrappers
  import opened Geometry
  import opened MappingTables
  import opened NandIo
  import opened FlashTranslation
  import opened EqualPages

  // ---- Host pages inside NAND pages ---------------------------------------------------------

  // A host page is addressed by its NAND page and its offset there; h is HOST_PER_NAND_PAGES.
  lemma HostPageUnique(l: nat, m: nat, h: nat)
    requires 0 < h
    ensures Quotient(l, h) == Quotient(m, h) && Digit(l, h) == Digit(m, h) <==> l == m
  {
    assert l == Quotient(l, h) * h + Digit(l, h) && m == Quotient(m, h) * h + Digit(m, h);
  }

  ghost predicate WideSound<P>(g: Geometry, h: nat, m: Media<seq<P>>) {
    0 < h && Sound(g, m) && forall p | p in m.flash :: |m.flash[p]| == h
  }

  predicate WideBuffers<P>(rmp: seq<seq<P>>, h: nat) {
    |rmp| == MDTS_PAGES && forall i | 0 <= i < |rmp| :: |rmp[i]| == h
  }

  /** What a host page reads as; nothing is claimed while its NAND page is unmapped. */
  ghost function HostContent<P>(g: Geometry, h: nat, m: Media<seq<P>>, l: nat): Option<P>
    requires WideSound(g, h, m) && Quotient(l, h) < |m.t.lpa|
  {
    var q := Quotient(l, h);
    assert LpaAgrees(g, m.t.ppa, q, m.t.lpa[q]);
    if Unmapped(m.t, q) then None else Some(m.flash[m.t.lpa[q]][Digit(l, h)])
  }

  // ---- The batch ------------------------------------------------------------------------

  /** The entries a flush programs: the first `num` valid ones. */
  function Taken(wbc: seq<WbcPage>, num: nat): (r: seq<WbcPage>)
    ensures |r| <= num && |r| <= |wbc|
    ensures forall i | 0 <= i < |r| :: r[i] in wbc && r[i].valid
  {
    if wbc == [] then []
    else
      var n := |wbc| - 1;
      var r := Taken(wbc[..n], num);
      if wbc[n].valid && |r| < num then r + [wbc[n]] else r
  }

  lemma {:induction false} TakenFull(wbc: seq<WbcPage>, num: nat, k: nat)
    requires k <= |wbc| && |Taken(wbc[..k], num)| == num
    ensures Taken(wbc, num) == Taken(wbc[..k], num)
    decreases |wbc|
  {
    if k == |wbc| {
      assert wbc[..k] == wbc;
    } else {
      var n := |wbc| - 1;
      assert wbc[..n][..k] == wbc[..k];
      TakenFull(wbc[..n], num, k);
    }
  }

  /** The NAND pages of a batch, each once, in order of first use. */
  function NandPages(pages: seq<WbcPage>, h: nat): (qs: seq<nat>)
    requires 0 < h
    ensures |qs| <= |pages|
    ensures forall i, j | 0 <= i < j < |qs| :: qs[i] != qs[j]
  {
    if pages == [] then []
    else
      var n := |pages| - 1;
      var qs := NandPages(pages[..n], h);
      if Quotient(pages[n].lpn, h) in qs then qs else qs + [Quotient(pages[n].lpn, h)]
  }

  // How many entries fall into NAND page q.
  function CountIn(pages: seq<WbcPage>, h: nat, q: nat): nat
    requires 0 < h
  {
    if pages == [] then 0
    else
      var n := |pages| - 1;
      CountIn(pages[..n], h, q) + if Quotient(pages[n].lpn, h) == q then 1 else 0
  }

  // The buffer slot of the last entry for offset o of NAND page q.
  function PtrOf(pages: seq<WbcPage>, h: nat, q: nat, o: nat): Option<nat>
    requires 0 < h
  {
    if pages == [] then None
    else
      var n := |pages| - 1;
      if Quotient(pages[n].lpn, h) == q && Digit(pages[n].lpn, h) == o then Some(pages[n].slot)
      else PtrOf(pages[..n], h, q, o)
  }

  predicate SlotsBelow(pages: seq<WbcPage>, n: nat) { forall i | 0 <= i < |pages| :: pages[i].slot < n }

  predicate PagesBelow(pages: seq<WbcPage>, h: nat, n: nat)
    requires 0 < h
  {
    forall i | 0 <= i < |pages| :: Quotient(pages[i].lpn, h) < n
  }

  lemma {:induction false} PtrBelow(pages: seq<WbcPage>, h: nat, q: nat, o: nat, n: nat)
    requires 0 < h && SlotsBelow(pages, n)
    ensures PtrOf(pages, h, q, o).Some? ==> PtrOf(pages, h, q, o).value < n
  {
    if pages != [] { PtrBelow(pages[..|pages| - 1], h, q, o, n); }
  }

  /** A NAND page is among the batch's exactly when some entry falls into it. */
  lemma {:induction false} NandPageIff(pages: seq<WbcPage>, h: nat, q: nat)
    requires 0 < h
    ensures q in NandPages(pages, h) <==> 0 < CountIn(pages, h, q)
    ensures q !in NandPages(pages, h) ==> forall o: nat :: PtrOf(pages, h, q, o) == None
  {
    if pages != [] { NandPageIff(pages[..|pages| - 1], h, q); }
  }

  lemma {:induction false} NandPagesBelow(pages: seq<WbcPage>, h: nat, n: nat)
    requires 0 < h && PagesBelow(pages, h, n)
    ensures InTable(NandPages(pages, h), n)
  {
    if pages != [] { NandPagesBelow(pages[..|pages| - 1], h, n); }
  }

  // ---- When every part of a NAND page is written ---------------------------------------------

  predicate DistinctLpns(pages: seq<WbcPage>) { forall i, j | 0 <= i < j < |pages| :: pages[i].lpn != pages[j].lpn }

  function Offsets(pages: seq<WbcPage>, h: nat, q: nat): set<nat>
    requires 0 < h
  {
    set o | 0 <= o < h && PtrOf(pages, h, q, o).Some?
  }

  lemma {:induction false} PtrOfSome(pages: seq<WbcPage>, h: nat, q: nat, o: nat)
    requires 0 < h
    ensures PtrOf(pages, h, q, o).Some? <==>
            exists i :: 0 <= i < |pages| && Quotient(pages[i].lpn, h) == q && Digit(pages[i].lpn, h) == o
  {
    if pages != [] {
      var n := |pages| - 1;
      PtrOfSome(pages[..n], h, q, o);
      if i :| 0 <= i < |pages| && Quotient(pages[i].lpn, h) == q && Digit(pages[i].lpn, h) == o {
        assert i < n ==> pages[..n][i] == pages[i];
      }
    }
  }

  lemma {:induction false} CountIsOffsets(pages: seq<WbcPage>, h: nat, q: nat)
    requires 0 < h && DistinctLpns(pages)
    ensures CountIn(pages, h, q) == |Offsets(pages, h, q)|
  {
    if pages != [] {
      var n := |pages| - 1;
      CountIsOffsets(pages[..n], h, q);
      var before, after := Offsets(pages[..n], h, q), Offsets(pages, h, q);
      if Quotient(pages[n].lpn, h) == q {
        var o := Digit(pages[n].lpn, h);
        PtrOfSome(pages[..n], h, q, o);
        if i :| 0 <= i < n && Quotient(pages[..n][i].lpn, h) == q && Digit(pages[..n][i].lpn, h) == o {
          HostPageUnique(pages[i].lpn, pages[n].lpn, h);
          assert false;
        }
        assert after == before + {o};
      } else {
        assert after == before;
      }
    } else {
      assert Offsets(pages, h, q) == {};
    }
  }

  predicate HasAllBelow(s: set<nat>, h: nat) { forall o | 0 <= o < h :: o in s }

  lemma {:induction false} SubsetOfFirst(s: set<nat>, h: nat)
    requires forall o | o in s :: o < h
    ensures |s| <= h
    ensures |s| == h <==> HasAllBelow(s, h)
  {
    if h == 0 {
      assert s == {};
    } else {
      var r := s - {h - 1};
      SubsetOfFirst(r, h - 1);
      if h - 1 in s { assert s == r + {h - 1}; } else { assert s == r; }
    }
  }

  predicate FullyWritten(pages: seq<WbcPage>, h: nat, q: nat)
    requires 0 < h
  {
    forall o | 0 <= o < h :: PtrOf(pages, h, q, o).Some?
  }

  /** In a batch of distinct host pages, the count of entries for a NAND page reaches HOST_PER_NAND_PAGES exactly
      when every part of the NAND page is written. */
  lemma CountReachesAllIff(pages: seq<WbcPage>, h: nat, q: nat)
    requires 0 < h && DistinctLpns(pages)
    ensures h <= CountIn(pages, h, q) <==> FullyWritten(pages, h, q)
  {
    CountIsOffsets(pages, h, q);
    SubsetOfFirst(Offsets(pages, h, q), h);
    var s := Offsets(pages, h, q);
    assert HasAllBelow(s, h) <==> FullyWritten(pages, h, q) by {
      forall o | 0 <= o < h ensures o in s <==> PtrOf(pages, h, q, o).Some? {}
    }
  }

  // ---- Specification of a flush ----------------------------------------------------------------

  // The old page is read before it is modified unless it does not exist or is thought to be fully overwritten.
  predicate ReadsOld(t: Tables, pages: seq<WbcPage>, h: nat, q: nat)
    requires 0 < h && q < |t.lpa|
  {
    !Unmapped(t, q) && CountIn(pages, h, q) < h
  }

  function Patched<P>(pages: seq<WbcPage>, h: nat, q: nat, ram: seq<P>, base: seq<P>): (r: seq<P>)
    requires 0 < h && |base| == h && SlotsBelow(pages, |ram|)
    ensures |r| == h
  {
    seq(h, o requires 0 <= o < h =>
      PtrBelow(pages, h, q, o, |ram|);
      match PtrOf(pages, h, q, o) case Some(s) => ram[s] case None => base[o])
  }

  ghost function Base<P>(g: Geometry, h: nat, m: Media<seq<P>>, pages: seq<WbcPage>, q: nat, stale: seq<P>): (r: seq<P>)
    requires WideSound(g, h, m) && q < |m.t.lpa| && |stale| == h
    ensures |r| == h
  {
    assert LpaAgrees(g, m.t.ppa, q, m.t.lpa[q]);
    if ReadsOld(m.t, pages, h, q) then m.flash[m.t.lpa[q]] else stale
  }

  ghost predicate Flushable<P>(g: Geometry, h: nat, m: Media<seq<P>>, pages: seq<WbcPage>, ram: seq<P>,
          rmp: seq<seq<P>>) {
    && WideSound(g, h, m) && WideBuffers(rmp, h)
    && SlotsBelow(pages, |ram|) && PagesBelow(pages, h, |m.t.lpa|) && |NandPages(pages, h)| <= MDTS_PAGES
    && |NandPages(pages, h)| <= FreePages(g, m.t)
  }

  // The modify buffers when they are programmed.
  ghost function Buffers<P>(g: Geometry, h: nat, m: Media<seq<P>>, pages: seq<WbcPage>, ram: seq<P>,
          rmp: seq<seq<P>>): (r: seq<seq<P>>)
    requires Flushable(g, h, m, pages, ram, rmp)
    ensures WideBuffers(r, h)
  {
    NandPagesBelow(pages, h, |m.t.lpa|);
    var qs := NandPages(pages, h);
    seq(MDTS_PAGES, i requires 0 <= i < MDTS_PAGES =>
      if i < |qs| then Patched(pages, h, qs[i], ram, Base(g, h, m, pages, qs[i], rmp[i])) else rmp[i])
  }

  datatype Flushed<P> = Flushed(media: Media<seq<P>>, rmp: seq<seq<P>>)

  /** A flush: all mappings move first, then each NAND page's buffer is programmed. */
  ghost function Flush<P>(g: Geometry, h: nat, m: Media<seq<P>>, pages: seq<WbcPage>, ram: seq<P>,
          rmp: seq<seq<P>>): Flushed<P>
    requires Flushable(g, h, m, pages, ram, rmp)
  {
    var qs := NandPages(pages, h);
    NandPagesBelow(pages, h, |m.t.lpa|);
    var (t', ppas) := MapAll(g, m.t, qs);
    var rmp' := Buffers(g, h, m, pages, ram, rmp);
    Flushed(Media(t', Program(m.flash, Ops(ppas, Range(0, |qs|)), rmp')), rmp')
  }

  // ---- Where mappings go -----------------------------------------------------------------------

  predicate Distinct(xs: seq<nat>) { forall i, j | 0 <= i < j < |xs| :: xs[i] != xs[j] }

  // Logical page lpns[i] sits on ppas[i]; all others where they were.
  ghost predicate MovedEach(before: seq<Ppa>, after: seq<Ppa>, lpns: seq<nat>, ppas: seq<Ppa>) {
    && |after| == |before| && |ppas| == |lpns|
    && (forall i | 0 <= i < |lpns| :: lpns[i] < |after| && after[lpns[i]] == ppas[i])
    && (forall l | 0 <= l < |before| && l !in lpns :: after[l] == before[l])
  }

  lemma MovedOneMore(before: seq<Ppa>, after: seq<Ppa>, lpns: seq<nat>, ppas: seq<Ppa>, l: nat, p: Ppa)
    requires MovedEach(before, after, lpns, ppas) && l < |before| && l !in lpns
    ensures MovedEach(before, after[l := p], lpns + [l], ppas + [p])
  {
  }

  lemma {:induction false} MapAllMoves(g: Geometry, t: Tables, lpns: seq<nat>)
    requires Core(g, t) && InTable(lpns, |t.lpa|) && |lpns| <= FreePages(g, t) && Distinct(lpns)
    ensures MovedEach(t.lpa, MapAll(g, t, lpns).0.lpa, lpns, MapAll(g, t, lpns).1)
  {
    hide MakeMapping, Core, FreePages;
    if lpns != [] {
      var n := |lpns| - 1;
      var l := lpns[n];
      assert lpns == lpns[..n] + [l];
      MapAllMoves(g, t, lpns[..n]);
      MapAllLast(g, t, lpns[..n], l);
      MapOne(g, MapAll(g, t, lpns[..n]).0, l);
      MovedOneMore(t.lpa, MapAll(g, t, lpns[..n]).0.lpa, lpns[..n], MapAll(g, t, lpns[..n]).1, l,
        MakeMapping(g, MapAll(g, t, lpns[..n]).0, l).1);
    }
  }

  // ---- What a flush does to host pages ---------------------------------------------------------

  ghost function IndexOf(qs: seq<nat>, q: nat): (i: nat)
    requires q in qs
    ensures i < |qs| && qs[i] == q
  {
    var i: nat :| i < |qs| && qs[i] == q; i
  }

  lemma FlushSound<P>(g: Geometry, h: nat, m: Media<seq<P>>, pages: seq<WbcPage>, ram: seq<P>, rmp: seq<seq<P>>)
    requires Flushable(g, h, m, pages, ram, rmp)
    ensures WideSound(g, h, Flush(g, h, m, pages, ram, rmp).media)
    ensures WideBuffers(Flush(g, h, m, pages, ram, rmp).rmp, h)
    ensures |Flush(g, h, m, pages, ram, rmp).media.t.lpa| == |m.t.lpa|
    ensures FreePages(g, Flush(g, h, m, pages, ram, rmp).media.t) + |NandPages(pages, h)| == FreePages(g, m.t)
  {
    hide MakeMapping, Core, FreePages, Program;
    var qs := NandPages(pages, h);
    NandPagesBelow(pages, h, |m.t.lpa|);
    MapAllTakesFreshPages(g, m.t, qs);
    ProgramBuffers(m.flash, MapAll(g, m.t, qs).1, Buffers(g, h, m, pages, ram, rmp));
  }

  // The NAND pages of the batch hold their buffers, the others are as before.
  lemma FlushPages<P>(g: Geometry, h: nat, m: Media<seq<P>>, pages: seq<WbcPage>, ram: seq<P>, rmp: seq<seq<P>>, l: nat)
    requires Flushable(g, h, m, pages, ram, rmp) && Quotient(l, h) < |m.t.lpa|
    requires WideSound(g, h, Flush(g, h, m, pages, ram, rmp).media)
    requires |Flush(g, h, m, pages, ram, rmp).media.t.lpa| == |m.t.lpa|
    ensures var qs, q := NandPages(pages, h), Quotient(l, h);
            HostContent(g, h, Flush(g, h, m, pages, ram, rmp).media, l) ==
            if q in qs then Some(Buffers(g, h, m, pages, ram, rmp)[IndexOf(qs, q)][Digit(l, h)])
            else HostContent(g, h, m, l)
  {
    hide MakeMapping, FreePages, Program, Buffers, NandPages, Quotient, Digit, Placed, Logged;
    var qs, q := NandPages(pages, h), Quotient(l, h);
    NandPagesBelow(pages, h, |m.t.lpa|);
    MapAllTakesFreshPages(g, m.t, qs);
    MapAllMoves(g, m.t, qs);
    var ppas := MapAll(g, m.t, qs).1;
    ProgramBuffers(m.flash, ppas, Buffers(g, h, m, pages, ram, rmp));
    assert LpaAgrees(g, m.t.ppa, q, m.t.lpa[q]);
    if q in qs {
      assert InRange(g, ppas[IndexOf(qs, q)]);
    } else if !Unmapped(m.t, q) {
      assert m.t.lpa[q] !in ppas;
    }
  }

  /** What every host page reads as after a flush, for any batch and any content of the modify buffers. */
  lemma FlushContent<P>(g: Geometry, h: nat, m: Media<seq<P>>, pages: seq<WbcPage>, ram: seq<P>, rmp: seq<seq<P>>,
          l: nat)
    requires Flushable(g, h, m, pages, ram, rmp) && Quotient(l, h) < |m.t.lpa|
    ensures WideSound(g, h, Flush(g, h, m, pages, ram, rmp).media)
    ensures |Flush(g, h, m, pages, ram, rmp).media.t.lpa| == |m.t.lpa|
    ensures var q, s := Quotient(l, h), PtrOf(pages, h, Quotient(l, h), Digit(l, h));
            HostContent(g, h, Flush(g, h, m, pages, ram, rmp).media, l) ==
            if s.Some? && s.value < |ram| then Some(ram[s.value])
            else if q !in NandPages(pages, h) then HostContent(g, h, m, l)
            else if !Unmapped(m.t, q) && CountIn(pages, h, q) < h then HostContent(g, h, m, l)
            else Some(rmp[IndexOf(NandPages(pages, h), q)][Digit(l, h)])
  {
    hide Flush, FreePages, MakeMapping;
    FlushSound(g, h, m, pages, ram, rmp);
    FlushPages(g, h, m, pages, ram, rmp, l);
    NandPageIff(pages, h, Quotient(l, h));
    PtrBelow(pages, h, Quotient(l, h), Digit(l, h), |ram|);
    assert LpaAgrees(g, m.t.ppa, Quotient(l, h), m.t.lpa[Quotient(l, h)]);
  }

  // ---- Runs --------------------------------------------------------------------------------

  /** The medium holds a disk: every host page of the disk is mapped and reads as the disk says. */
  ghost predicate Holds<P(!new)>(g: Geometry, h: nat, m: Media<seq<P>>, disk: map<nat, P>)
    requires WideSound(g, h, m)
  {
    forall l | l in disk :: Quotient(l, h) < |m.t.lpa| && HostContent(g, h, m, l) == Some(disk[l])
  }

  function DiskWrite<P>(disk: map<nat, P>, pages: seq<WbcPage>, ram: seq<P>): map<nat, P>
    requires SlotsBelow(pages, |ram|)
  {
    if pages == [] then disk
    else
      var n := |pages| - 1;
      DiskWrite(disk, pages[..n], ram)[pages[n].lpn := ram[pages[n].slot]]
  }

  lemma {:induction false} DiskWriteAt<P>(disk: map<nat, P>, pages: seq<WbcPage>, ram: seq<P>, h: nat, l: nat)
    requires SlotsBelow(pages, |ram|) && 0 < h
    ensures var s := PtrOf(pages, h, Quotient(l, h), Digit(l, h));
            if s.Some? then
              s.value < |ram| && l in DiskWrite(disk, pages, ram) && DiskWrite(disk, pages, ram)[l] == ram[s.value]
            else
              (l in DiskWrite(disk, pages, ram) <==> l in disk)
                && (l in disk ==> DiskWrite(disk, pages, ram)[l] == disk[l])
  {
    if pages != [] {
      DiskWriteAt(disk, pages[..|pages| - 1], ram, h, l);
      HostPageUnique(l, pages[|pages| - 1].lpn, h);
    }
  }

  /** Flushing distinct host pages gives each its new content and leaves every other page of the disk unchanged,
      although the mapping moves before the old page is read. */
  lemma FlushRefines<P(!new)>(g: Geometry, h: nat, m: Media<seq<P>>, pages: seq<WbcPage>, ram: seq<P>,
          rmp: seq<seq<P>>, disk: map<nat, P>)
    requires Flushable(g, h, m, pages, ram, rmp) && DistinctLpns(pages) && Holds(g, h, m, disk)
    ensures WideSound(g, h, Flush(g, h, m, pages, ram, rmp).media)
    ensures Holds(g, h, Flush(g, h, m, pages, ram, rmp).media, DiskWrite(disk, pages, ram))
  {
    hide Flush, FreePages, MakeMapping, HostContent;
    FlushSound(g, h, m, pages, ram, rmp);
    var after := Flush(g, h, m, pages, ram, rmp).media;
    forall l | l in DiskWrite(disk, pages, ram)
      ensures Quotient(l, h) < |after.t.lpa| && HostContent(g, h, after, l) == Some(DiskWrite(disk, pages, ram)[l])
    {
      DiskWriteAt(disk, pages, ram, h, l);
      var q := Quotient(l, h);
      NandPageIff(pages, h, q);
      NandPagesBelow(pages, h, |m.t.lpa|);
      if q in NandPages(pages, h) { assert NandPages(pages, h)[IndexOf(NandPages(pages, h), q)] < |m.t.lpa|; }
      FlushContent(g, h, m, pages, ram, rmp, l);
      CountReachesAllIff(pages, h, q);
      if l in disk { HeldIsMapped(g, h, m, disk, l); }
      assert Digit(l, h) < h;
    }
  }

  lemma HeldIsMapped<P(!new)>(g: Geometry, h: nat, m: Media<seq<P>>, disk: map<nat, P>, l: nat)
    requires WideSound(g, h, m) && Holds(g, h, m, disk) && l in disk
    ensures Quotient(l, h) < |m.t.lpa| && !Unmapped(m.t, Quotient(l, h)) && HostContent(g, h, m, l) == Some(disk[l])
  {
  }

  /** A batch that names a host page twice can lose its neighbour: the count is reached although a part of the NAND
      page is missing, so the part gets whatever the modify buffer held. */
  lemma DuplicateLosesNeighbour<P>(g: Geometry, m: Media<seq<P>>, ram: seq<P>, rmp: seq<seq<P>>)
    requires WideSound(g, 2, m) && WideBuffers(rmp, 2) && 0 < |ram| && 0 < |m.t.lpa| && 1 <= FreePages(g, m.t)
    ensures var pages := [WbcPage(0, 0, true), WbcPage(0, 0, true)];
            && Flushable(g, 2, m, pages, ram, rmp)
            && WideSound(g, 2, Flush(g, 2, m, pages, ram, rmp).media)
            && 0 < |Flush(g, 2, m, pages, ram, rmp).media.t.lpa|
            && HostContent(g, 2, Flush(g, 2, m, pages, ram, rmp).media, 1) == Some(rmp[0][1])
  {
    hide *;
    TwiceFirst();
    var pages := [WbcPage(0, 0, true), WbcPage(0, 0, true)];
    TwiceFits(g, m, ram, rmp);
    FlushContent(g, 2, m, pages, ram, rmp, 1);
    assert IndexOf([0], 0) == 0;
  }

  lemma TwiceFirst()
    ensures var pages := [WbcPage(0, 0, true), WbcPage(0, 0, true)];
            && NandPages(pages, 2) == [0] && CountIn(pages, 2, 0) == 2 && PtrOf(pages, 2, 0, 1) == None
            && PagesBelow(pages, 2, 1) && SlotsBelow(pages, 1)
    ensures Quotient(1, 2) == 0 && Digit(1, 2) == 1
  {
    hide NandPages, CountIn, PtrOf;
    var e := WbcPage(0, 0, true);
    EmptyBatch(2);
    BatchLast([], e, 2);
    BatchLast([e], e, 2);
    assert [] + [e] == [e] && [e] + [e] == [e, e];
  }

  lemma EmptyBatch(h: nat)
    requires 0 < h
    ensures NandPages([], h) == [] && CountIn([], h, 0) == 0 && PtrOf([], h, 0, 1) == None
  {
  }

  lemma TwiceFits<P>(g: Geometry, m: Media<seq<P>>, ram: seq<P>, rmp: seq<seq<P>>)
    requires WideSound(g, 2, m) && WideBuffers(rmp, 2) && 0 < |ram| && 0 < |m.t.lpa| && 1 <= FreePages(g, m.t)
    ensures Flushable(g, 2, m, [WbcPage(0, 0, true), WbcPage(0, 0, true)], ram, rmp)
  {
    hide FreePages, WideSound;
    TwiceFirst();
  }

  lemma BatchLast(pages: seq<WbcPage>, e: WbcPage, h: nat)
    requires 0 < h
    ensures NandPages(pages + [e], h) ==
            if Quotient(e.lpn, h) in NandPages(pages, h) then NandPages(pages, h)
            else NandPages(pages, h) + [Quotient(e.lpn, h)]
    ensures forall q :: CountIn(pages + [e], h, q) == CountIn(pages, h, q) + if Quotient(e.lpn, h) == q then 1 else 0
    ensures forall q, o :: PtrOf(pages + [e], h, q, o) ==
              if Quotient(e.lpn, h) == q && Digit(e.lpn, h) == o then Some(e.slot) else PtrOf(pages, h, q, o)
  {
    assert (pages + [e])[..|pages|] == pages;
  }

  datatype Batch<P> = Batch(pages: seq<WbcPage>, ram: seq<P>)

  ghost predicate BatchFits<P>(b: Batch<P>, h: nat, lpns: nat)
    requires 0 < h
  {
    && SlotsBelow(b.pages, |b.ram|) && PagesBelow(b.pages, h, lpns)
    && |NandPages(b.pages, h)| <= MDTS_PAGES && DistinctLpns(b.pages)
  }

  ghost predicate BatchesFit<P>(bs: seq<Batch<P>>, h: nat, lpns: nat)
    requires 0 < h
  {
    forall i | 0 <= i < |bs| :: BatchFits(bs[i], h, lpns)
  }

  function NandPagesUsed<P>(bs: seq<Batch<P>>, h: nat): nat
    requires 0 < h
  {
    if bs == [] then 0 else NandPagesUsed(bs[..|bs| - 1], h) + |NandPages(bs[|bs| - 1].pages, h)|
  }

  ghost function FlushRun<P>(g: Geometry, h: nat, m: Media<seq<P>>, rmp: seq<seq<P>>,
          bs: seq<Batch<P>>): (r: Flushed<P>)
    requires WideSound(g, h, m) && WideBuffers(rmp, h)
    requires BatchesFit(bs, h, |m.t.lpa|) && NandPagesUsed(bs, h) <= FreePages(g, m.t)
    ensures WideSound(g, h, r.media) && WideBuffers(r.rmp, h) && |r.media.t.lpa| == |m.t.lpa|
    ensures FreePages(g, r.media.t) + NandPagesUsed(bs, h) == FreePages(g, m.t)
  {
    if bs == [] then Flushed(m, rmp)
    else
      var b := bs[|bs| - 1];
      var before := FlushRun(g, h, m, rmp, bs[..|bs| - 1]);
      FlushSound(g, h, before.media, b.pages, b.ram, before.rmp);
      Flush(g, h, before.media, b.pages, b.ram, before.rmp)
  }

  function DiskRun<P>(disk: map<nat, P>, bs: seq<Batch<P>>): map<nat, P>
    requires forall i | 0 <= i < |bs| :: SlotsBelow(bs[i].pages, |bs[i].ram|)
  {
    if bs == [] then disk else DiskWrite(DiskRun(disk, bs[..|bs| - 1]), bs[|bs| - 1].pages, bs[|bs| - 1].ram)
  }

  /** Over any run of flushes, every host page that was on the disk or has been written since reads as its last
      content, whatever stale bytes the modify buffers carried along. */
  lemma {:induction false} FlushRunRefines<P(!new)>(g: Geometry, h: nat, m: Media<seq<P>>, rmp: seq<seq<P>>,
          bs: seq<Batch<P>>, disk: map<nat, P>)
    requires WideSound(g, h, m) && WideBuffers(rmp, h) && Holds(g, h, m, disk)
    requires BatchesFit(bs, h, |m.t.lpa|) && NandPagesUsed(bs, h) <= FreePages(g, m.t)
    ensures Holds(g, h, FlushRun(g, h, m, rmp, bs).media, DiskRun(disk, bs))
  {
    hide Flush, FreePages, Holds, WideSound;
    if bs != [] {
      var n := |bs| - 1;
      FlushRunRefines(g, h, m, rmp, bs[..n], disk);
      var before := FlushRun(g, h, m, rmp, bs[..n]);
      FlushRefines(g, h, before.media, bs[n].pages, bs[n].ram, before.rmp, DiskRun(disk, bs[..n]));
    }
  }

  // ---- The request loops ----------------------------------------------------------------------

  /** One entry of program_pages or of read_pages. */
  datatype PageInfo = PageInfo(nandPage: nat, unmapped: bool, current: Ppa, newPpa: Ppa, ptrs: seq<Option<nat>>,
    mods: nat)

  function Put(info: PageInfo, offset: nat, slot: nat): PageInfo
    requires offset < |info.ptrs|
  {
    info.(ptrs := info.ptrs[offset := Some(slot)], mods := info.mods + 1)
  }

  function NoPtrs(h: nat): seq<Option<nat>> { seq(h, _ => None) }

  predicate PtrsAre(ptrs: seq<Option<nat>>, pages: seq<WbcPage>, h: nat, q: nat)
    requires 0 < h
  {
    |ptrs| == h && forall o | 0 <= o < h :: ptrs[o] == PtrOf(pages, h, q, o)
  }

  ghost predicate GroupIs(t: Tables, pages: seq<WbcPage>, h: nat, q: nat, info: PageInfo)
    requires 0 < h && q < |t.lpa|
  {
    && info.nandPage == q && info.unmapped == Unmapped(t, q) && info.current == t.lpa[q]
    && PtrsAre(info.ptrs, pages, h, q) && info.mods == CountIn(pages, h, q)
  }

  function NewPpas(groups: seq<PageInfo>): seq<Ppa> { seq(|groups|, i requires 0 <= i < |groups| => groups[i].newPpa) }

  // program_pages and the tables after the entries in `pages`.
  ghost predicate Grouped(g: Geometry, h: nat, t: Tables, pages: seq<WbcPage>, now: Tables, groups: seq<PageInfo>) {
    && 0 < h && Core(g, t) && PagesBelow(pages, h, |t.lpa|) && |NandPages(pages, h)| <= FreePages(g, t)
    && |groups| == |NandPages(pages, h)|
    && InTable(NandPages(pages, h), |t.lpa|)
    && MapAll(g, t, NandPages(pages, h)) == (now, NewPpas(groups))
    && GroupsAre(t, pages, h, groups)
  }

  ghost predicate GroupsAre(t: Tables, pages: seq<WbcPage>, h: nat, groups: seq<PageInfo>)
    requires 0 < h && |groups| == |NandPages(pages, h)| && InTable(NandPages(pages, h), |t.lpa|)
  {
    forall i | 0 <= i < |groups| :: GroupIs(t, pages, h, NandPages(pages, h)[i], groups[i])
  }

  lemma NothingGrouped(g: Geometry, h: nat, t: Tables)
    requires 0 < h && Core(g, t)
    ensures Grouped(g, h, t, [], t, [])
  {
    assert MapAll(g, t, []) == (t, []) && NewPpas([]) == [];
  }

  lemma GroupAgain(g: Geometry, h: nat, t: Tables, pages: seq<WbcPage>, now: Tables, groups: seq<PageInfo>,
          e: WbcPage, i: nat)
    requires Grouped(g, h, t, pages, now, groups) && i < |groups| && groups[i].nandPage == Quotient(e.lpn, h)
    ensures Digit(e.lpn, h) < |groups[i].ptrs|
    ensures Grouped(g, h, t, pages + [e], now, groups[i := Put(groups[i], Digit(e.lpn, h), e.slot)])
  {
    hide MapAll, Core, FreePages, GroupIs, NandPages, Put;
    BatchLast(pages, e, h);
    assert GroupIs(t, pages, h, NandPages(pages, h)[i], groups[i]);
    GroupPut(t, pages, h, NandPages(pages, h)[i], groups[i], e);
    var groups' := groups[i := Put(groups[i], Digit(e.lpn, h), e.slot)];
    assert NewPpas(groups') == NewPpas(groups);
    forall k | 0 <= k < |groups'| ensures GroupIs(t, pages + [e], h, NandPages(pages, h)[k], groups'[k]) {
      if k != i {
        assert NandPages(pages, h)[k] != NandPages(pages, h)[i];
        GroupPassedOver(t, pages, h, NandPages(pages, h)[k], groups[k], e);
      }
    }
  }

  lemma GroupPut(t: Tables, pages: seq<WbcPage>, h: nat, q: nat, info: PageInfo, e: WbcPage)
    requires 0 < h && q < |t.lpa| && GroupIs(t, pages, h, q, info) && info.nandPage == Quotient(e.lpn, h)
    ensures q == Quotient(e.lpn, h) && Digit(e.lpn, h) < |info.ptrs|
    ensures Put(info, Digit(e.lpn, h), e.slot).newPpa == info.newPpa
    ensures GroupIs(t, pages + [e], h, q, Put(info, Digit(e.lpn, h), e.slot))
  {
    BatchLast(pages, e, h);
  }

  lemma GroupPassedOver(t: Tables, pages: seq<WbcPage>, h: nat, q: nat, info: PageInfo, e: WbcPage)
    requires 0 < h && q < |t.lpa| && GroupIs(t, pages, h, q, info) && q != Quotient(e.lpn, h)
    ensures GroupIs(t, pages + [e], h, q, info)
  {
    BatchLast(pages, e, h);
  }

  lemma GroupFirst(g: Geometry, h: nat, t: Tables, pages: seq<WbcPage>, now: Tables, groups: seq<PageInfo>, e: WbcPage)
    requires Grouped(g, h, t, pages, now, groups) && Quotient(e.lpn, h) < |t.lpa|
    requires forall i | 0 <= i < |groups| :: groups[i].nandPage != Quotient(e.lpn, h)
    requires |NandPages(pages + [e], h)| <= FreePages(g, t)
    ensures var q, o := Quotient(e.lpn, h), Digit(e.lpn, h);
            && Core(g, now) && HasRoom(g, now) && q < |now.lpa| == |t.lpa| && now.lpa[q] == t.lpa[q]
            && var (now', p) := MakeMapping(g, now, q);
               Grouped(g, h, t, pages + [e], now',
                 groups + [Put(PageInfo(q, Unmapped(t, q), t.lpa[q], p, NoPtrs(h), 0), o, e.slot)])
  {
    hide MakeMapping, MapAll, Core, FreePages, NandPages, GroupIs, Quotient, Digit, NoPtrs;
    var qs, q, o := NandPages(pages, h), Quotient(e.lpn, h), Digit(e.lpn, h);
    NandPagesLast(pages, e, h);
    OffsetBelow(e.lpn, h);
    NotListed(t, pages, h, groups, q);
    InTableWith(qs, q, |t.lpa|);
    MapAllLast(g, t, qs, q);
    MapAllMoves(g, t, qs);
    var p := MakeMapping(g, now, q).1;
    var info := Put(PageInfo(q, Unmapped(t, q), t.lpa[q], p, NoPtrs(h), 0), o, e.slot);
    NewPpasLast(groups, info, p);
    forall k | 0 <= k < |groups + [info]| ensures GroupIs(t, pages + [e], h, (qs + [q])[k], (groups + [info])[k]) {
      if k < |groups| {
        assert GroupIs(t, pages, h, qs[k], groups[k]);
        OldGroup(t, pages, e, h, qs[k], groups[k]);
      } else {
        NewGroup(t, pages, e, h, p);
      }
    }
  }

  lemma NandPagesLast(pages: seq<WbcPage>, e: WbcPage, h: nat)
    requires 0 < h
    ensures NandPages(pages + [e], h) ==
            if Quotient(e.lpn, h) in NandPages(pages, h) then NandPages(pages, h)
            else NandPages(pages, h) + [Quotient(e.lpn, h)]
  {
    assert (pages + [e])[..|pages|] == pages;
  }

  lemma OffsetBelow(l: nat, h: nat)
    requires 0 < h
    ensures Digit(l, h) < h && |NoPtrs(h)| == h
  {
  }

  lemma NotListed(t: Tables, pages: seq<WbcPage>, h: nat, groups: seq<PageInfo>, q: nat)
    requires 0 < h && |groups| == |NandPages(pages, h)| && InTable(NandPages(pages, h), |t.lpa|)
    requires GroupsAre(t, pages, h, groups) && forall i | 0 <= i < |groups| :: groups[i].nandPage != q
    ensures q !in NandPages(pages, h)
  {
    hide NandPages, PtrsAre, CountIn;
    var qs := NandPages(pages, h);
    forall i | 0 <= i < |qs| ensures qs[i] != q { assert GroupIs(t, pages, h, qs[i], groups[i]); }
  }

  lemma InTableWith(qs: seq<nat>, q: nat, n: nat)
    requires InTable(qs, n) && q < n
    ensures InTable(qs + [q], n)
  {
  }

  lemma NewPpasLast(groups: seq<PageInfo>, info: PageInfo, p: Ppa)
    requires info.newPpa == p
    ensures NewPpas(groups + [info]) == NewPpas(groups) + [p]
  {
  }

  // A group of another NAND page is still right with one more entry.
  lemma OldGroup(t: Tables, pages: seq<WbcPage>, e: WbcPage, h: nat, q: nat, info: PageInfo)
    requires 0 < h && q < |t.lpa| && GroupIs(t, pages, h, q, info) && q != Quotient(e.lpn, h)
    ensures GroupIs(t, pages + [e], h, q, info)
  {
    hide CountIn, PtrOf, NandPages, Quotient, Digit;
    BatchLast(pages, e, h);
  }

  // The first entry of a NAND page makes its group.
  lemma NewGroup(t: Tables, pages: seq<WbcPage>, e: WbcPage, h: nat, p: Ppa)
    requires 0 < h && Quotient(e.lpn, h) < |t.lpa| && Quotient(e.lpn, h) !in NandPages(pages, h)
    ensures var q, o := Quotient(e.lpn, h), Digit(e.lpn, h);
            && o < |NoPtrs(h)|
            && GroupIs(t, pages + [e], h, q, Put(PageInfo(q, Unmapped(t, q), t.lpa[q], p, NoPtrs(h), 0), o, e.slot))
  {
    hide CountIn, PtrOf, NandPages, Quotient;
    BatchLast(pages, e, h);
    NandPageIff(pages, h, Quotient(e.lpn, h));
  }

  // The operation that reads page i of the list into buffer i wherever it is needed.
  function Select(need: seq<bool>, ppas: seq<Ppa>): (op: seq<PageOp>)
    requires |need| == |ppas|
    ensures |op| <= |need| && SlotsIn(op, |need|)
  {
    if need == [] then []
    else
      var n := |need| - 1;
      Select(need[..n], ppas[..n]) + if need[n] then [PageOp(ppas[n], n)] else []
  }

  lemma {:induction false} SelectReads<Q>(flash: map<Ppa, Q>, need: seq<bool>, ppas: seq<Ppa>, bufs: seq<Q>)
    requires |need| == |ppas| <= |bufs| && forall i | 0 <= i < |need| && need[i] :: ppas[i] in flash
    ensures SlotsIn(Select(need, ppas), |bufs|) && PagesIn(Select(need, ppas), flash)
    ensures forall i | 0 <= i < |bufs| ::
              ReadInto(flash, Select(need, ppas), bufs)[i] == if i < |need| && need[i] then flash[ppas[i]] else bufs[i]
  {
    hide ReadInto, SlotsIn, PagesIn;
    if need == [] {
      NothingRead(flash, bufs);
    } else {
      var n := |need| - 1;
      SelectReads(flash, need[..n], ppas[..n], bufs);
      var before := Select(need[..n], ppas[..n]);
      if need[n] {
        SelectOneMore(flash, before, PageOp(ppas[n], n), bufs);
      } else {
        assert Select(need, ppas) == before;
      }
    }
  }

  lemma NothingRead<Q>(flash: map<Ppa, Q>, bufs: seq<Q>)
    ensures SlotsIn([], |bufs|) && PagesIn([], flash) && ReadInto(flash, [], bufs) == bufs
  {
  }

  lemma SelectOneMore<Q>(flash: map<Ppa, Q>, op: seq<PageOp>, last: PageOp, bufs: seq<Q>)
    requires SlotsIn(op, |bufs|) && PagesIn(op, flash) && last.slot < |bufs| && last.ppa in flash
    ensures SlotsIn(op + [last], |bufs|) && PagesIn(op + [last], flash)
    ensures ReadInto(flash, op + [last], bufs) == ReadInto(flash, op, bufs)[last.slot := flash[last.ppa]]
  {
    assert (op + [last])[..|op|] == op;
  }

  lemma SelectLast(need: seq<bool>, ppas: seq<Ppa>, b: bool, p: Ppa)
    requires |need| == |ppas|
    ensures Select(need + [b], ppas + [p]) == Select(need, ppas) + if b then [PageOp(p, |need|)] else []
  {
    assert (need + [b])[..|need|] == need && (ppas + [p])[..|ppas|] == ppas;
  }

  function NeedOld(groups: seq<PageInfo>, h: nat): seq<bool> {
    seq(|groups|, i requires 0 <= i < |groups| => !groups[i].unmapped && groups[i].mods < h)
  }

  function Currents(groups: seq<PageInfo>): seq<Ppa> {
    seq(|groups|, i requires 0 <= i < |groups| => groups[i].current)
  }

  function PatchedBy<P>(ptrs: seq<Option<nat>>, ram: seq<P>, base: seq<P>): (r: seq<P>)
    requires |ptrs| == |base| && forall o | 0 <= o < |ptrs| && ptrs[o].Some? :: ptrs[o].value < |ram|
    ensures |r| == |base|
  {
    seq(|base|, o requires 0 <= o < |base| => match ptrs[o] case Some(s) => ram[s] case None => base[o])
  }

  // Facts about a finished grouping.
  lemma GroupsSelectOld<P>(g: Geometry, h: nat, m: Media<seq<P>>, pages: seq<WbcPage>, now: Tables,
          groups: seq<PageInfo>, rmp: seq<seq<P>>)
    requires WideSound(g, h, m) && Grouped(g, h, m.t, pages, now, groups) && |groups| <= |rmp| && WideBuffers(rmp, h)
    ensures var op := Select(NeedOld(groups, h), Currents(groups));
            && SlotsIn(op, |rmp|) && PagesIn(op, m.flash)
            && WideBuffers(ReadInto(m.flash, op, rmp), h)
            && (forall i | 0 <= i < |rmp| :: ReadInto(m.flash, op, rmp)[i] ==
                 if i < |groups| then Base(g, h, m, pages, NandPages(pages, h)[i], rmp[i]) else rmp[i])
  {
    hide MapAll, FreePages;
    var qs := NandPages(pages, h);
    var need, ppas := NeedOld(groups, h), Currents(groups);
    forall i | 0 <= i < |groups| ensures need[i] <==> ReadsOld(m.t, pages, h, qs[i]) {
      assert GroupIs(m.t, pages, h, qs[i], groups[i]);
    }
    forall i | 0 <= i < |groups| && need[i] ensures ppas[i] in m.flash {
      assert GroupIs(m.t, pages, h, qs[i], groups[i]);
      assert LpaAgrees(g, m.t.ppa, qs[i], m.t.lpa[qs[i]]);
    }
    SelectReads(m.flash, need, ppas, rmp);
    forall i | 0 <= i < |groups|
      ensures ReadInto(m.flash, Select(need, ppas), rmp)[i] == Base(g, h, m, pages, qs[i], rmp[i])
    {
      assert GroupIs(m.t, pages, h, qs[i], groups[i]);
    }
  }

  lemma PatchedByPtrs<P>(ptrs: seq<Option<nat>>, pages: seq<WbcPage>, h: nat, q: nat, ram: seq<P>, base: seq<P>)
    requires 0 < h && PtrsAre(ptrs, pages, h, q) && SlotsBelow(pages, |ram|) && |base| == h
    ensures forall o | 0 <= o < |ptrs| && ptrs[o].Some? :: ptrs[o].value < |ram|
    ensures PatchedBy(ptrs, ram, base) == Patched(pages, h, q, ram, base)
  {
    forall o | 0 <= o < |ptrs| ensures ptrs[o].Some? ==> ptrs[o].value < |ram| { PtrBelow(pages, h, q, o, |ram|); }
  }

  // Modify buffers of which the first k have been patched.
  ghost predicate PatchedUpTo<P>(g: Geometry, h: nat, m: Media<seq<P>>, pages: seq<WbcPage>, ram: seq<P>,
          rmp0: seq<seq<P>>, k: nat, rmp: seq<seq<P>>)
    requires Flushable(g, h, m, pages, ram, rmp0) && InTable(NandPages(pages, h), |m.t.lpa|)
    requires k <= |NandPages(pages, h)|
  {
    && WideBuffers(rmp, h)
    && forall i | 0 <= i < |rmp| :: rmp[i] ==
         if i < k then Buffers(g, h, m, pages, ram, rmp0)[i]
         else if i < |NandPages(pages, h)| then Base(g, h, m, pages, NandPages(pages, h)[i], rmp0[i])
         else rmp0[i]
  }

  lemma PatchOneMore<P>(g: Geometry, h: nat, m: Media<seq<P>>, pages: seq<WbcPage>, now: Tables,
          groups: seq<PageInfo>, ram: seq<P>, rmp0: seq<seq<P>>, k: nat, rmp: seq<seq<P>>)
    requires Grouped(g, h, m.t, pages, now, groups) && k < |groups|
    requires Flushable(g, h, m, pages, ram, rmp0) && PatchedUpTo(g, h, m, pages, ram, rmp0, k, rmp)
    ensures |groups[k].ptrs| == |rmp[k]| && forall o | 0 <= o < |groups[k].ptrs| && groups[k].ptrs[o].Some? ::
      groups[k].ptrs[o].value < |ram|
    ensures PatchedUpTo(g, h, m, pages, ram, rmp0, k + 1, rmp[k := PatchedBy(groups[k].ptrs, ram, rmp[k])])
  {
    hide MapAll, FreePages, Base;
    assert GroupIs(m.t, pages, h, NandPages(pages, h)[k], groups[k]);
    PatchedByPtrs(groups[k].ptrs, pages, h, NandPages(pages, h)[k], ram, rmp[k]);
  }

  lemma AllPatched<P>(g: Geometry, h: nat, m: Media<seq<P>>, pages: seq<WbcPage>, now: Tables, groups: seq<PageInfo>,
          ram: seq<P>, rmp0: seq<seq<P>>, rmp: seq<seq<P>>)
    requires Grouped(g, h, m.t, pages, now, groups)
    requires Flushable(g, h, m, pages, ram, rmp0) && PatchedUpTo(g, h, m, pages, ram, rmp0, |groups|, rmp)
    ensures Flush(g, h, m, pages, ram, rmp0) ==
      Flushed(Media(now, Program(m.flash, Ops(NewPpas(groups), Range(0, |groups|)), rmp)), rmp)
  {
    hide MapAll, FreePages, Base;
    assert rmp == Buffers(g, h, m, pages, ram, rmp0);
  }

  lemma GroupedFlushable<P>(g: Geometry, h: nat, m: Media<seq<P>>, pages: seq<WbcPage>, now: Tables,
          groups: seq<PageInfo>, ram: seq<P>, rmp: seq<seq<P>>, read: seq<seq<P>>)
    requires WideSound(g, h, m) && Grouped(g, h, m.t, pages, now, groups) && WideBuffers(rmp, h)
    requires SlotsBelow(pages, |ram|)
    requires |groups| <= MDTS_PAGES
    requires SlotsIn(Select(NeedOld(groups, h), Currents(groups)), |rmp|)
    requires PagesIn(Select(NeedOld(groups, h), Currents(groups)), m.flash)
    requires read == ReadInto(m.flash, Select(NeedOld(groups, h), Currents(groups)), rmp)
    ensures Flushable(g, h, m, pages, ram, rmp)
    ensures PatchedUpTo(g, h, m, pages, ram, rmp, 0, read)
  {
    hide MapAll, Core, FreePages, Base, Select, NeedOld, Currents, ReadInto, NandPages, GroupsAre, Buffers, HoldsLpn;
    GroupsSelectOld(g, h, m, pages, now, groups, rmp);
  }

  class UnequalFtl<P(0)> {
    const ftl: Ftl
    const nand: Nand<seq<P>>
    const h: nat
    const rmp: array<seq<P>>
    const tempRead: array<seq<P>>

    constructor (ftl: Ftl, nand: Nand<seq<P>>, h: nat, blank: seq<P>)
      requires 0 < h == |blank|
      ensures this.ftl == ftl && this.nand == nand && this.h == h
      ensures fresh(rmp) && WideBuffers(rmp[..], h) && fresh(tempRead) && WideBuffers(tempRead[..], h)
    {
      this.ftl, this.nand, this.h := ftl, nand, h;
      rmp := new seq<P>[MDTS_PAGES](_ => blank);
      tempRead := new seq<P>[MDTS_PAGES](_ => blank);
    }

    ghost function State(): Media<seq<P>>
      requires ftl.Shaped()
      reads ftl.Repr(), nand
    {
      Media(ftl.View(), nand.flash)
    }

    ghost predicate Valid()
      reads ftl.Repr(), nand, rmp
    {
      && ftl.Shaped() && WideSound(ftl.g, h, State()) && WideBuffers(rmp[..], h)
      && rmp !in ftl.Repr() && (nand as object) != rmp
    }

    // The inner search over program_pages: the last entry for the NAND page, or -1.
    static method FindPage(groups: seq<PageInfo>, nandPage: nat) returns (found: int)
      ensures -1 <= found < |groups|
      ensures if found < 0 then forall i | 0 <= i < |groups| :: groups[i].nandPage != nandPage
        else groups[found].nandPage == nandPage
    {
      found := -1;
      for ix := 0 to |groups|
        invariant -1 <= found < ix
        invariant if found < 0 then forall i | 0 <= i < ix :: groups[i].nandPage != nandPage
          else groups[found].nandPage == nandPage
      {
        if groups[ix].nandPage == nandPage { found := ix; }
      }
    }

    // One entry of the batch: its NAND page is looked up, or appended with a new mapping.
    method AddPage(e: WbcPage, ghost t: Tables, ghost pages: seq<WbcPage>,
            groups: seq<PageInfo>) returns (groups': seq<PageInfo>)
      requires ftl.Shaped() && Grouped(ftl.g, h, t, pages, ftl.View(), groups) && Quotient(e.lpn, h) < |t.lpa|
      requires |NandPages(pages + [e], h)| <= FreePages(ftl.g, t)
      modifies ftl.Repr()
      ensures Grouped(ftl.g, h, t, pages + [e], ftl.View(), groups')
    {
      hide MakeMapping, MapAll, Core, FreePages, Grouped;
      assert 0 < h by { GroupedAt(ftl.g, h, t, pages, ftl.View(), groups); }
      var nandPage, offset := Quotient(e.lpn, h), Digit(e.lpn, h);
      var ix := FindPage(groups, nandPage);
      if ix < 0 {
        GroupFirst(ftl.g, h, t, pages, ftl.View(), groups, e);
        var unmapped, current := ftl.lpaTable[nandPage].chn == UNMAPPED_CHN, ftl.lpaTable[nandPage];
        var newPpa := ftl.MakeNewMapping(nandPage);
        groups' := groups + [Put(PageInfo(nandPage, unmapped, current, newPpa, NoPtrs(h), 0), offset, e.slot)];
      } else {
        GroupAgain(ftl.g, h, t, pages, ftl.View(), groups, e, ix);
        groups' := groups[ix := Put(groups[ix], offset, e.slot)];
      }
    }

    // Reads the old content of every NAND page that is modified only in part.
    method ReadOld(groups: seq<PageInfo>)
      requires |groups| <= rmp.Length && |groups| <= MAX_OP_PAGES
      requires (nand as object) != rmp && PagesIn(Select(NeedOld(groups, h), Currents(groups)), nand.flash)
      modifies rmp
      ensures rmp[..] == ReadInto(nand.flash, Select(NeedOld(groups, h), Currents(groups)), old(rmp[..]))
    {
      hide *;
      var op: seq<PageOp> := [];
      ChosenNone(groups, h);
      for ix := 0 to |groups|
        invariant op == Chosen(groups, h, ix) && rmp[..] == old(rmp[..])
      {
        ChosenNext(groups, h, ix);
        if !(groups[ix].unmapped || groups[ix].mods >= h) {
          op := AddOpPage(op, groups[ix].current, ix);
        }
      }
      ChosenAll(groups, h, rmp.Length);
      nand.SyncRead(op, rmp);
    }

    // Copies the new host pages of one NAND page over its buffer.
    method Patch(ptrs: seq<Option<nat>>, ram: seq<P>, k: nat)
      requires k < rmp.Length && |ptrs| == |rmp[k]| && forall o | 0 <= o < |ptrs| && ptrs[o].Some? ::
        ptrs[o].value < |ram|
      modifies rmp
      ensures rmp[..] == old(rmp[..])[k := PatchedBy(ptrs, ram, old(rmp[k]))]
    {
      ghost var base := rmp[k];
      for ih := 0 to |ptrs|
        invariant |rmp[k]| == |base|
        invariant forall o | 0 <= o < |base| :: rmp[k][o] == if o < ih then PatchedBy(ptrs, ram, base)[o] else base[o]
        invariant rmp[..] == old(rmp[..])[k := rmp[k]]
      {
        if ptrs[ih].Some? {
          rmp[k] := rmp[k][ih := ram[ptrs[ih].value]];
        }
      }
      assert rmp[k] == PatchedBy(ptrs, ram, base);
    }

    // Everything after the grouping loop.
    method ModifyAndProgram(groups: seq<PageInfo>, ram: seq<P>, ghost m: Media<seq<P>>, ghost pages: seq<WbcPage>)
      requires ftl.Shaped() && rmp !in ftl.Repr() && (nand as object) != rmp && nand !in ftl.Repr()
      requires WideSound(ftl.g, h, m) && m.flash == nand.flash && Grouped(ftl.g, h, m.t, pages, ftl.View(), groups)
      requires |groups| <= MDTS_PAGES && SlotsBelow(pages, |ram|) && WideBuffers(rmp[..], h)
      modifies rmp, nand
      ensures Flushable(ftl.g, h, m, pages, ram, old(rmp[..]))
      ensures Flushed(State(), rmp[..]) == Flush(ftl.g, h, m, pages, ram, old(rmp[..]))
    {
      hide Grouped, MapAll, Core, Flushable, PatchedUpTo, WideSound, Flush, Buffers, Base, Select, NeedOld, Currents;
      hide ReadInto, Program, NandPages, Offered, GroupsAre, SlotsBelow;
      ghost var rmp0 := rmp[..];
      GroupsSelectOld(ftl.g, h, m, pages, ftl.View(), groups, rmp0);
      ReadOld(groups);
      GroupedFlushable(ftl.g, h, m, pages, ftl.View(), groups, ram, rmp0, rmp[..]);
      GroupedAt(ftl.g, h, m.t, pages, ftl.View(), groups);
      OfferedNone(groups);
      var op: seq<PageOp> := [];
      for k := 0 to |groups|
        invariant PatchedUpTo(ftl.g, h, m, pages, ram, rmp0, k, rmp[..])
        invariant rmp.Length == MDTS_PAGES && nand.flash == m.flash
        invariant op == Offered(groups, k)
      {
        PatchOneMore(ftl.g, h, m, pages, ftl.View(), groups, ram, rmp0, k, rmp[..]);
        Patch(groups[k].ptrs, ram, k);
        OfferedNext(groups, k);
        op := AddOpPage(op, groups[k].newPpa, k);
      }
      AllPatched(ftl.g, h, m, pages, ftl.View(), groups, ram, rmp0, rmp[..]);
      OfferedAll(groups, rmp.Length);
      nand.SyncProgram(op, rmp);
    }

    /** Flushing the write-back cache. */
    method ProcessWbc(wbc: seq<WbcPage>, num: nat, ram: seq<P>)
      requires Valid() && nand !in ftl.Repr() && |wbc| == WBC_PAGES
      requires forall i | 0 <= i < |wbc| && wbc[i].valid ::
                 wbc[i].slot < |ram| && Quotient(wbc[i].lpn, h) < ftl.lpaTable.Length
      requires |NandPages(Taken(wbc, num), h)| <= FreePages(ftl.g, ftl.View())
      modifies ftl.Repr(), nand, rmp
      ensures Flushable(ftl.g, h, old(State()), Taken(wbc, num), ram, old(rmp[..]))
      ensures ftl.Shaped()
      ensures Flushed(State(), rmp[..]) == Flush(ftl.g, h, old(State()), Taken(wbc, num), ram, old(rmp[..]))
    {
      ghost var m := State();
      NothingTaken(ftl.g, h, ftl.View(), wbc, num);
      var groups := GroupWbc(wbc, num);
      assert |NandPages(Taken(wbc, num), h)| <= WBC_PAGES;
      ModifyAndProgram(groups, ram, m, Taken(wbc, num));
    }

    method GroupWbc(wbc: seq<WbcPage>, num: nat) returns (groups: seq<PageInfo>)
      requires |wbc| == WBC_PAGES && ftl.Shaped() && WbcGrouped(ftl.g, h, ftl.View(), wbc, num, 0, 0, ftl.View(), [])
      modifies ftl.Repr()
      ensures ftl.Shaped() && Grouped(ftl.g, h, old(ftl.View()), Taken(wbc, num), ftl.View(), groups)
    {
      hide *;
      ghost var t := ftl.View();
      groups := [];
      var numProgramPgs, icache := 0, 0;
      while icache < WBC_PAGES && numProgramPgs < num
        invariant 0 <= icache <= WBC_PAGES
        invariant ftl.Shaped() && WbcGrouped(ftl.g, h, t, wbc, num, icache, numProgramPgs, ftl.View(), groups)
      {
        ghost var now, before := ftl.View(), groups;
        TakenNext(ftl.g, h, t, wbc, num, icache, numProgramPgs, now, before);
        if wbc[icache].valid {
          groups := AddPage(wbc[icache], t, Taken(wbc[..icache], num), groups);
          numProgramPgs := numProgramPgs + 1;
        }
        TakenAdded(ftl.g, h, t, wbc, num, icache, now, before, numProgramPgs, ftl.View(), groups);
        icache := icache + 1;
      }
      AllTaken(ftl.g, h, t, wbc, num, icache, numProgramPgs, ftl.View(), groups);
    }

    /** __sync_program_pages: n consecutive host pages from a buffer. */
    method SyncProgramPages(start: nat, n: nat, ram: seq<P>)
      requires Valid() && nand !in ftl.Repr() && n <= |ram|
      requires PagesBelow(RangePages(start, n), h, ftl.lpaTable.Length)
      requires |NandPages(RangePages(start, n), h)| <= MDTS_PAGES
      requires |NandPages(RangePages(start, n), h)| <= FreePages(ftl.g, ftl.View())
      modifies ftl.Repr(), nand, rmp
      ensures Flushable(ftl.g, h, old(State()), RangePages(start, n), ram, old(rmp[..]))
      ensures ftl.Shaped()
      ensures Flushed(State(), rmp[..]) == Flush(ftl.g, h, old(State()), RangePages(start, n), ram, old(rmp[..]))
    {
      ghost var m := State();
      NothingRanged(ftl.g, h, ftl.View(), start, n);
      var groups := GroupRange(start, n);
      ModifyAndProgram(groups, ram, m, RangePages(start, n));
    }

    method GroupRange(start: nat, n: nat) returns (groups: seq<PageInfo>)
      requires ftl.Shaped() && RangeGrouped(ftl.g, h, ftl.View(), start, n, 0, ftl.View(), [])
      modifies ftl.Repr()
      ensures ftl.Shaped() && Grouped(ftl.g, h, old(ftl.View()), RangePages(start, n), ftl.View(), groups)
    {
      hide *;
      ghost var t := ftl.View();
      groups := [];
      var lpnIndex, lpn := 0, start;
      while lpnIndex < n
        invariant 0 <= lpnIndex <= n && lpn == start + lpnIndex
        invariant ftl.Shaped() && RangeGrouped(ftl.g, h, t, start, n, lpnIndex, ftl.View(), groups)
      {
        ghost var now, before := ftl.View(), groups;
        RangeNext(ftl.g, h, t, start, n, lpnIndex, now, before);
        groups := AddPage(WbcPage(lpn, lpnIndex, true), t, RangePages(start, lpnIndex), groups);
        RangeAdded(ftl.g, h, t, start, n, lpnIndex, now, before, ftl.View(), groups);
        lpnIndex := lpnIndex + 1;
        lpn := lpn + 1;
      }
      AllRanged(ftl.g, h, t, start, n, ftl.View(), groups);
    }

    /** ftl_process_read_io: n host pages from start. Those of unmapped NAND pages are only redirected to the zero
        buffer, which the transfer to the host does not follow: their slots keep what they held. */
    method ReadPages(start: nat, n: nat, ram: array<P>) returns (toZero: seq<bool>)
      requires Valid() && WideBuffers(tempRead[..], h) && n <= MDTS_PAGES && n <= ram.Length
      requires PagesBelow(RangePages(start, n), h, ftl.lpaTable.Length)
      requires (tempRead as object) !in ftl.Repr() + {nand, ram, rmp} && (ram as object) !in ftl.Repr() + {nand, rmp}
      modifies ram, tempRead
      ensures Valid() && State() == old(State()) && WideBuffers(tempRead[..], h)
      ensures ReadResult(ftl.g, h, State(), start, n, toZero, old(ram[..]), ram[..])
    {
      hide Core, Select, ReadInto, NandPages, Sound, WideSound, CopiedUpTo, ReadGrouped, HostContent, ReadResult;
      hide PagesBelow;
      ghost var m, ram0 := State(), ram[..];
      WideAt(ftl.g, h, m);
      var groups, op;
      groups, op, toZero := GroupReads(start, n);
      ReadGroupsMean(ftl.g, h, m, start, n, groups, op, toZero, tempRead[..]);
      ReadSizes(m.t.lpa, start, n, h, groups, op, toZero);
      nand.SyncRead(op, tempRead);
      NothingCopied(start, n, h, groups, tempRead[..], ram0);
      for k := 0 to |groups|
        invariant CopiedUpTo(start, n, h, groups, tempRead[..], ram0, k, ram[..])
        invariant tempRead[..] == ReadInto(m.flash, op, old(tempRead[..]))
      {
        ghost var before := ram[..];
        GroupAt(m.t.lpa, start, n, h, groups, op, toZero, k);
        if !groups[k].unmapped {
          CopyOut(groups[k].ptrs, groups[k].nandPage, k, start, n, ram);
        }
        CopiedOneMore(m.t.lpa, start, n, h, groups, op, toZero, tempRead[..], ram0, k, before, ram[..]);
      }
      AllCopied(ftl.g, h, m, start, n, groups, op, toZero, tempRead[..], ram0, ram[..]);
    }

    method GroupReads(start: nat, n: nat) returns (groups: seq<PageInfo>, op: seq<PageOp>, toZero: seq<bool>)
      requires ftl.Shaped() && 0 < h && n <= MDTS_PAGES && PagesBelow(RangePages(start, n), h, ftl.lpaTable.Length)
      ensures ReadGrouped(ftl.lpaTable[..], start, n, h, groups, op, toZero)
    {
      hide *;
      groups, op, toZero := [], [], [];
      ReadNone(ftl.lpaTable[..], start, h);
      var lpnIndex := 0;
      while lpnIndex < n
        invariant 0 <= lpnIndex <= n
        invariant ReadGrouped(ftl.lpaTable[..], start, lpnIndex, h, groups, op, toZero)
      {
        RangeBelow(start, n, lpnIndex, h, ftl.lpaTable.Length);
        groups, op, toZero := AddRead(start, lpnIndex, groups, op, toZero);
        lpnIndex := lpnIndex + 1;
      }
    }

    // One host page of the request: its NAND page is looked up, or appended and its read added to the operation.
    method AddRead(start: nat, lpnIndex: nat, groups: seq<PageInfo>, op: seq<PageOp>, toZero: seq<bool>)
      returns (groups': seq<PageInfo>, op': seq<PageOp>, toZero': seq<bool>)
      requires 0 < h && lpnIndex < MDTS_PAGES && Quotient(start + lpnIndex, h) < ftl.lpaTable.Length
      requires ReadGrouped(ftl.lpaTable[..], start, lpnIndex, h, groups, op, toZero)
      ensures ReadGrouped(ftl.lpaTable[..], start, lpnIndex + 1, h, groups', op', toZero')
    {
      hide ReadGrouped, NandPages, Select;
      var nandPage, offset := Quotient(start + lpnIndex, h), Digit(start + lpnIndex, h);
      groups', op', toZero' := groups, op, toZero;
      var ix := FindPage(groups, nandPage);
      ghost var known := ix;
      if ix < 0 {
        var unmapped := ftl.lpaTable[nandPage].chn == UNMAPPED_CHN;
        var info := PageInfo(nandPage, unmapped, ftl.lpaTable[nandPage], Ppa(0, 0, 0, 0, 0), NoPtrs(h), 0);
        ReadFirst(ftl.lpaTable[..], start, lpnIndex, h, groups, op, toZero, info);
        if !info.unmapped {
          op' := AddOpPage(op, info.current, |groups|);
        }
        groups' := groups + [info];
        ix := |groups|;
      } else {
        ReadAgain(ftl.lpaTable[..], start, lpnIndex, h, groups, op, toZero, ix);
      }
      if groups'[ix].unmapped {
        toZero' := toZero + [true];
      } else {
        toZero' := toZero + [false];
        groups' := groups'[ix := Put(groups'[ix], offset, lpnIndex)];
      }
      assert known < 0 ==> groups' == groups + [groups'[ix]];
    }

    // Copies the host pages found in buffer k to their places.
    method CopyOut(ptrs: seq<Option<nat>>, nandPage: nat, k: nat, start: nat, n: nat, ram: array<P>)
      requires 0 < h && PtrsAre(ptrs, RangePages(start, n), h, nandPage) && k < tempRead.Length && |tempRead[k]| == h
      requires n <= ram.Length
      requires (tempRead as object) != ram
      modifies ram
      ensures forall d | 0 <= d < ram.Length ::
                ram[d] == if d < n && Quotient(start + d, h) == nandPage then tempRead[k][Digit(start + d, h)]
                  else old(ram[d])
    {
      ghost var src, ram0 := tempRead[k], ram[..];
      hide *;
      NothingScattered(start, n, h, nandPage, src, ram0);
      PtrsLength(ptrs, RangePages(start, n), h, nandPage);
      for ih := 0 to |ptrs|
        invariant Scattered(start, n, h, nandPage, ih, src, ram0, ram[..])
      {
        ScatterNext(ptrs, start, n, h, nandPage, ih, src, ram0, ram[..]);
        if ptrs[ih].Some? {
          ram[ptrs[ih].value] := tempRead[k][ih];
        }
      }
      AllScattered(start, n, h, nandPage, src, ram0, ram[..]);
    }
  }

  lemma GroupedAt(g: Geometry, h: nat, t: Tables, pages: seq<WbcPage>, now: Tables, groups: seq<PageInfo>)
    requires Grouped(g, h, t, pages, now, groups)
    ensures 0 < h && |groups| == |NandPages(pages, h)| && |now.lpa| == |t.lpa|
    ensures Core(g, t) && InTable(NandPages(pages, h), |t.lpa|)
  {
    hide Core, FreePages;
  }

  // The read operation after the first k groups.
  function Chosen(groups: seq<PageInfo>, h: nat, k: nat): seq<PageOp>
    requires k <= |groups|
  {
    Select(NeedOld(groups, h)[..k], Currents(groups)[..k])
  }

  lemma ChosenNone(groups: seq<PageInfo>, h: nat)
    ensures Chosen(groups, h, 0) == []
  {
  }

  lemma ChosenNext(groups: seq<PageInfo>, h: nat, k: nat)
    requires k < |groups| <= MAX_OP_PAGES
    ensures Chosen(groups, h, k + 1) ==
            if !(groups[k].unmapped || groups[k].mods >= h) then AddOpPage(Chosen(groups, h, k), groups[k].current, k)
            else Chosen(groups, h, k)
  {
    hide Select;
    var need, ppas := NeedOld(groups, h), Currents(groups);
    SelectLast(need[..k], ppas[..k], need[k], ppas[k]);
    assert need[..k + 1] == need[..k] + [need[k]] && ppas[..k + 1] == ppas[..k] + [ppas[k]];
  }

  lemma ChosenAll(groups: seq<PageInfo>, h: nat, n: nat)
    requires |groups| <= n
    ensures Chosen(groups, h, |groups|) == Select(NeedOld(groups, h), Currents(groups))
    ensures SlotsIn(Chosen(groups, h, |groups|), n)
  {
    assert NeedOld(groups, h)[..|groups|] == NeedOld(groups, h) && Currents(groups)[..|groups|] == Currents(groups);
  }

  // The program operation after the first k groups.
  function Offered(groups: seq<PageInfo>, k: nat): (op: seq<PageOp>)
    requires k <= |groups|
    ensures |op| == k
  {
    Ops(NewPpas(groups)[..k], Range(0, k))
  }

  lemma OfferedNone(groups: seq<PageInfo>)
    ensures Offered(groups, 0) == []
  {
  }

  lemma OfferedNext(groups: seq<PageInfo>, k: nat)
    requires k < |groups| <= MDTS_PAGES
    ensures AddOpPage(Offered(groups, k), groups[k].newPpa, k) == Offered(groups, k + 1)
  {
  }

  lemma OfferedAll(groups: seq<PageInfo>, n: nat)
    requires |groups| <= n
    ensures Offered(groups, |groups|) == Ops(NewPpas(groups), Range(0, |groups|))
    ensures SlotsIn(Offered(groups, |groups|), n)
  {
    assert NewPpas(groups)[..|groups|] == NewPpas(groups);
  }

  lemma BatchGrows(pages: seq<WbcPage>, e: WbcPage, h: nat)
    requires 0 < h
    ensures |NandPages(pages, h)| <= |NandPages(pages + [e], h)|
  {
    BatchLast(pages, e, h);
  }

  lemma TakenStep(wbc: seq<WbcPage>, num: nat, k: nat)
    requires k < |wbc|
    ensures Taken(wbc[..k + 1], num) ==
            if wbc[k].valid && |Taken(wbc[..k], num)| < num then Taken(wbc[..k], num) + [wbc[k]]
            else Taken(wbc[..k], num)
  {
    assert wbc[..k + 1][..k] == wbc[..k];
  }

  lemma {:induction false} TakenGrows(wbc: seq<WbcPage>, num: nat, k: nat, h: nat)
    requires k <= |wbc| && 0 < h
    ensures |NandPages(Taken(wbc[..k], num), h)| <= |NandPages(Taken(wbc, num), h)|
    decreases |wbc| - k
  {
    hide *;
    if k < |wbc| {
      TakenGrowsOne(wbc, num, k, h);
      TakenGrows(wbc, num, k + 1, h);
    } else {
      assert wbc[..k] == wbc;
    }
  }

  lemma TakenGrowsOne(wbc: seq<WbcPage>, num: nat, k: nat, h: nat)
    requires k < |wbc| && 0 < h
    ensures |NandPages(Taken(wbc[..k], num), h)| <= |NandPages(Taken(wbc[..k + 1], num), h)|
  {
    hide *;
    TakenStep(wbc, num, k);
    BatchGrows(Taken(wbc[..k], num), wbc[k], h);
  }

  // The grouping loop of a flush after icache cache entries.
  ghost predicate WbcGrouped(g: Geometry, h: nat, t: Tables, wbc: seq<WbcPage>, num: nat, icache: nat, count: nat,
          now: Tables, groups: seq<PageInfo>) {
    && icache <= |wbc| && count == |Taken(wbc[..icache], num)| && 0 < h
    && g.Valid() && |NandPages(Taken(wbc, num), h)| <= FreePages(g, t)
    && (forall i | 0 <= i < |wbc| && wbc[i].valid :: Quotient(wbc[i].lpn, h) < |t.lpa|)
    && Grouped(g, h, t, Taken(wbc[..icache], num), now, groups)
  }

  lemma NothingTaken(g: Geometry, h: nat, t: Tables, wbc: seq<WbcPage>, num: nat)
    requires 0 < h && Core(g, t) && |NandPages(Taken(wbc, num), h)| <= FreePages(g, t)
    requires forall i | 0 <= i < |wbc| && wbc[i].valid :: Quotient(wbc[i].lpn, h) < |t.lpa|
    ensures WbcGrouped(g, h, t, wbc, num, 0, 0, t, [])
  {
    hide NandPages, Quotient, FreePages, Grouped;
    NothingGrouped(g, h, t);
  }

  // What AddPage needs for the next entry.
  lemma TakenNext(g: Geometry, h: nat, t: Tables, wbc: seq<WbcPage>, num: nat, icache: nat, count: nat, now: Tables,
          groups: seq<PageInfo>)
    requires WbcGrouped(g, h, t, wbc, num, icache, count, now, groups) && icache < |wbc| && count < num
    ensures g.Valid() && 0 < h && Grouped(g, h, t, Taken(wbc[..icache], num), now, groups)
    ensures count == |Taken(wbc[..icache], num)|
    ensures wbc[icache].valid ==>
              Quotient(wbc[icache].lpn, h) < |t.lpa|
                && |NandPages(Taken(wbc[..icache], num) + [wbc[icache]], h)| <= FreePages(g, t)
  {
    hide NandPages, Quotient, FreePages, Grouped, Taken;
    TakenStep(wbc, num, icache);
    TakenGrows(wbc, num, icache + 1, h);
  }

  lemma TakenAdded(g: Geometry, h: nat, t: Tables, wbc: seq<WbcPage>, num: nat, icache: nat, was: Tables,
          before: seq<PageInfo>, count: nat, now: Tables, groups: seq<PageInfo>)
    requires icache < |wbc| && |Taken(wbc[..icache], num)| < num
    requires WbcGrouped(g, h, t, wbc, num, icache, |Taken(wbc[..icache], num)|, was, before)
    requires count == |Taken(wbc[..icache], num)| + (if wbc[icache].valid then 1 else 0)
    requires Grouped(g, h, t, if wbc[icache].valid then Taken(wbc[..icache], num) + [wbc[icache]]
      else Taken(wbc[..icache], num), now, groups)
    ensures WbcGrouped(g, h, t, wbc, num, icache + 1, count, now, groups)
  {
    hide NandPages, Quotient, FreePages, Grouped, Taken;
    TakenStep(wbc, num, icache);
  }

  lemma AllTaken(g: Geometry, h: nat, t: Tables, wbc: seq<WbcPage>, num: nat, icache: nat, count: nat, now: Tables,
          groups: seq<PageInfo>)
    requires WbcGrouped(g, h, t, wbc, num, icache, count, now, groups) && (icache == |wbc| || count >= num)
    ensures Grouped(g, h, t, Taken(wbc, num), now, groups)
  {
    hide NandPages, Quotient, FreePages, Grouped;
    if icache == |wbc| { assert wbc[..icache] == wbc; } else { TakenFull(wbc, num, icache); }
  }

  // The grouping loop over consecutive host pages after k of n.
  ghost predicate RangeGrouped(g: Geometry, h: nat, t: Tables, start: nat, n: nat, k: nat, now: Tables,
          groups: seq<PageInfo>) {
    && k <= n && 0 < h && PagesBelow(RangePages(start, n), h, |t.lpa|)
    && g.Valid() && |NandPages(RangePages(start, n), h)| <= FreePages(g, t)
    && Grouped(g, h, t, RangePages(start, k), now, groups)
  }

  lemma NothingRanged(g: Geometry, h: nat, t: Tables, start: nat, n: nat)
    requires 0 < h && Core(g, t) && PagesBelow(RangePages(start, n), h, |t.lpa|)
    requires |NandPages(RangePages(start, n), h)| <= FreePages(g, t)
    ensures RangeGrouped(g, h, t, start, n, 0, t, [])
  {
    hide NandPages, Quotient, FreePages, Grouped, RangePages, PagesBelow;
    RangePagesNone(start);
    NothingGrouped(g, h, t);
  }

  lemma RangeNext(g: Geometry, h: nat, t: Tables, start: nat, n: nat, k: nat, now: Tables, groups: seq<PageInfo>)
    requires RangeGrouped(g, h, t, start, n, k, now, groups) && k < n
    ensures g.Valid() && 0 < h && Grouped(g, h, t, RangePages(start, k), now, groups)
    ensures Quotient(start + k, h) < |t.lpa|
    ensures |NandPages(RangePages(start, k) + [WbcPage(start + k, k, true)], h)| <= FreePages(g, t)
  {
    hide NandPages, Quotient, FreePages, Grouped, RangePages, PagesBelow;
    RangePagesNext(start, k);
    RangeGrows(start, n, k + 1, h);
    RangeBelow(start, n, k, h, |t.lpa|);
  }

  lemma RangeAdded(g: Geometry, h: nat, t: Tables, start: nat, n: nat, k: nat, was: Tables, before: seq<PageInfo>,
          now: Tables, groups: seq<PageInfo>)
    requires k < n && RangeGrouped(g, h, t, start, n, k, was, before)
    requires Grouped(g, h, t, RangePages(start, k) + [WbcPage(start + k, k, true)], now, groups)
    ensures RangeGrouped(g, h, t, start, n, k + 1, now, groups)
  {
    hide NandPages, Quotient, FreePages, Grouped, RangePages, PagesBelow;
    RangePagesNext(start, k);
  }

  lemma AllRanged(g: Geometry, h: nat, t: Tables, start: nat, n: nat, now: Tables, groups: seq<PageInfo>)
    requires RangeGrouped(g, h, t, start, n, n, now, groups)
    ensures Grouped(g, h, t, RangePages(start, n), now, groups)
  {
    hide Grouped;
  }

  function RangePages(start: nat, n: nat): seq<WbcPage> { seq(n, i requires 0 <= i => WbcPage(start + i, i, true)) }

  lemma RangePagesNone(start: nat)
    ensures RangePages(start, 0) == []
  {
  }

  lemma RangePagesNext(start: nat, k: nat)
    ensures RangePages(start, k + 1) == RangePages(start, k) + [WbcPage(start + k, k, true)]
  {
  }

  lemma RangeBelow(start: nat, n: nat, k: nat, h: nat, lpns: nat)
    requires 0 < h && k < n && PagesBelow(RangePages(start, n), h, lpns)
    ensures Quotient(start + k, h) < lpns
  {
    assert RangePages(start, n)[k].lpn == start + k;
  }

  lemma RangePagesDistinct(start: nat, n: nat)
    ensures DistinctLpns(RangePages(start, n)) && SlotsBelow(RangePages(start, n), n)
  {
  }

  lemma {:induction false} RangeGrows(start: nat, n: nat, k: nat, h: nat)
    requires k <= n && 0 < h
    ensures |NandPages(RangePages(start, k), h)| <= |NandPages(RangePages(start, n), h)|
    decreases n - k
  {
    hide *;
    if k < n {
      RangePagesNext(start, k);
      BatchGrows(RangePages(start, k), WbcPage(start + k, k, true), h);
      RangeGrows(start, n, k + 1, h);
    }
  }

  // ---- Reading ----------------------------------------------------------------------------------

  ghost predicate ReadGroupIs(lpa: seq<Ppa>, pages: seq<WbcPage>, h: nat, q: nat, info: PageInfo)
    requires 0 < h
  {
    && q < |lpa| && info.nandPage == q && info.unmapped == (lpa[q].chn == UNMAPPED_CHN) && info.current == lpa[q]
    && |info.ptrs| == h && (!info.unmapped ==> PtrsAre(info.ptrs, pages, h, q))
  }

  function MappedOnes(groups: seq<PageInfo>): seq<bool> { seq(|groups|,
          i requires 0 <= i < |groups| => !groups[i].unmapped) }

  ghost predicate ReadGroupsAre(lpa: seq<Ppa>, pages: seq<WbcPage>, h: nat, groups: seq<PageInfo>) {
    && 0 < h && |groups| == |NandPages(pages, h)|
    && forall i | 0 <= i < |groups| :: ReadGroupIs(lpa, pages, h, NandPages(pages, h)[i], groups[i])
  }

  predicate Redirected(lpa: seq<Ppa>, start: nat, h: nat, toZero: seq<bool>) {
    && 0 < h
    && forall i | 0 <= i < |toZero| ::
         Quotient(start + i, h) < |lpa| && (toZero[i] <==> lpa[Quotient(start + i, h)].chn == UNMAPPED_CHN)
  }

  // read_pages, the read operation and the redirections after n host pages.
  ghost predicate ReadGrouped(lpa: seq<Ppa>, start: nat, n: nat, h: nat, groups: seq<PageInfo>, op: seq<PageOp>,
          toZero: seq<bool>) {
    && ReadGroupsAre(lpa, RangePages(start, n), h, groups) && |groups| <= n
    && op == Select(MappedOnes(groups), Currents(groups))
    && |toZero| == n && Redirected(lpa, start, h, toZero)
  }

  lemma ReadNone(lpa: seq<Ppa>, start: nat, h: nat)
    requires 0 < h
    ensures ReadGrouped(lpa, start, 0, h, [], [], [])
  {
    RangePagesNone(start);
  }

  lemma RedirectedNext(lpa: seq<Ppa>, start: nat, h: nat, toZero: seq<bool>, b: bool)
    requires Redirected(lpa, start, h, toZero) && Quotient(start + |toZero|, h) < |lpa|
    requires b <==> lpa[Quotient(start + |toZero|, h)].chn == UNMAPPED_CHN
    ensures Redirected(lpa, start, h, toZero + [b])
  {
    hide Quotient;
    var after := toZero + [b];
    forall i | 0 <= i < |after|
      ensures Quotient(start + i, h) < |lpa| && (after[i] <==> lpa[Quotient(start + i, h)].chn == UNMAPPED_CHN)
    {
      if i < |toZero| { assert after[i] == toZero[i]; }
    }
  }

  lemma ReadGroupPut(lpa: seq<Ppa>, pages: seq<WbcPage>, h: nat, q: nat, info: PageInfo, e: WbcPage)
    requires 0 < h && ReadGroupIs(lpa, pages, h, q, info)
    ensures Digit(e.lpn, h) < |info.ptrs|
    ensures ReadGroupIs(lpa, pages + [e], h, q,
              if Quotient(e.lpn, h) != q || info.unmapped then info else Put(info, Digit(e.lpn, h), e.slot))
  {
    hide Quotient;
    BatchLast(pages, e, h);
  }

  lemma ReadAgain(lpa: seq<Ppa>, start: nat, k: nat, h: nat, groups: seq<PageInfo>, op: seq<PageOp>,
          toZero: seq<bool>, ix: nat)
    requires ReadGrouped(lpa, start, k, h, groups, op, toZero) && ix < |groups| && 0 < h
    requires groups[ix].nandPage == Quotient(start + k, h)
    ensures Digit(start + k, h) < |groups[ix].ptrs|
    ensures ReadGrouped(lpa, start, k + 1, h,
              if groups[ix].unmapped then groups
              else groups[ix := Put(groups[ix], Digit(start + k, h), k)], op, toZero + [groups[ix].unmapped])
  {
    hide Select, Quotient, Digit, Redirected, MappedOnes, Currents, ReadGroupsAre, Put, RangePages;
    var e := WbcPage(start + k, k, true);
    RangePagesNext(start, k);
    GroupsPut(lpa, RangePages(start, k), h, groups, e, ix);
    PutKeepsReads(groups, ix, Digit(start + k, h), k);
    RedirectedNext(lpa, start, h, toZero, groups[ix].unmapped);
  }

  lemma PutKeepsReads(groups: seq<PageInfo>, ix: nat, offset: nat, slot: nat)
    requires ix < |groups| && offset < |groups[ix].ptrs|
    ensures MappedOnes(groups[ix := Put(groups[ix], offset, slot)]) == MappedOnes(groups)
    ensures Currents(groups[ix := Put(groups[ix], offset, slot)]) == Currents(groups)
  {
  }

  lemma GroupsPut(lpa: seq<Ppa>, pages: seq<WbcPage>, h: nat, groups: seq<PageInfo>, e: WbcPage, ix: nat)
    requires ReadGroupsAre(lpa, pages, h, groups) && ix < |groups| && groups[ix].nandPage == Quotient(e.lpn, h)
    ensures Digit(e.lpn, h) < |groups[ix].ptrs| && Quotient(e.lpn, h) < |lpa|
    ensures groups[ix].unmapped == (lpa[Quotient(e.lpn, h)].chn == UNMAPPED_CHN)
    ensures ReadGroupsAre(lpa, pages + [e], h, if groups[ix].unmapped then groups
      else groups[ix := Put(groups[ix], Digit(e.lpn, h), e.slot)])
  {
    hide NandPages, Quotient, Digit, PtrsAre, Put;
    var qs := NandPages(pages, h);
    assert ReadGroupIs(lpa, pages, h, qs[ix], groups[ix]);
    ReadGroupPut(lpa, pages, h, qs[ix], groups[ix], e);
    BatchLast(pages, e, h);
    var groups' := if groups[ix].unmapped then groups else groups[ix := Put(groups[ix], Digit(e.lpn, h), e.slot)];
    forall i | 0 <= i < |groups'| ensures ReadGroupIs(lpa, pages + [e], h, qs[i], groups'[i]) {
      assert ReadGroupIs(lpa, pages, h, qs[i], groups[i]);
      if i != ix { assert qs[i] != qs[ix]; }
      ReadGroupPut(lpa, pages, h, qs[i], groups[i], e);
    }
  }

  lemma ReadFirst(lpa: seq<Ppa>, start: nat, k: nat, h: nat, groups: seq<PageInfo>, op: seq<PageOp>,
          toZero: seq<bool>, info: PageInfo)
    requires ReadGrouped(lpa, start, k, h, groups, op, toZero) && k < MDTS_PAGES && 0 < h
    requires Quotient(start + k, h) < |lpa|
    requires forall i | 0 <= i < |groups| :: groups[i].nandPage != Quotient(start + k, h)
    requires var q := Quotient(start + k, h);
             info == PageInfo(q, lpa[q].chn == UNMAPPED_CHN, lpa[q], info.newPpa, NoPtrs(h), 0)
    ensures Digit(start + k, h) < |info.ptrs|
    ensures var last := if info.unmapped then info else Put(info, Digit(start + k, h), k);
            var op' := if info.unmapped then op else AddOpPage(op, info.current, |groups|);
            ReadGrouped(lpa, start, k + 1, h, groups + [last], op', toZero + [info.unmapped])
  {
    hide Select, Quotient, Redirected, NandPages;
    var e := WbcPage(start + k, k, true);
    RangePagesNext(start, k);
    GroupsFirst(lpa, RangePages(start, k), h, groups, info, e);
    var last := if info.unmapped then info else Put(info, Digit(start + k, h), k);
    assert MappedOnes(groups + [last]) == MappedOnes(groups) + [!info.unmapped];
    assert Currents(groups + [last]) == Currents(groups) + [info.current];
    SelectLast(MappedOnes(groups), Currents(groups), !info.unmapped, info.current);
    RedirectedNext(lpa, start, h, toZero, info.unmapped);
  }

  lemma GroupsFirst(lpa: seq<Ppa>, pages: seq<WbcPage>, h: nat, groups: seq<PageInfo>, info: PageInfo, e: WbcPage)
    requires ReadGroupsAre(lpa, pages, h, groups) && Quotient(e.lpn, h) < |lpa|
    requires forall i | 0 <= i < |groups| :: groups[i].nandPage != Quotient(e.lpn, h)
    requires var q := Quotient(e.lpn, h);
             info == PageInfo(q, lpa[q].chn == UNMAPPED_CHN, lpa[q], info.newPpa, NoPtrs(h), 0)
    ensures Digit(e.lpn, h) < |info.ptrs|
    ensures ReadGroupsAre(lpa, pages + [e], h,
      groups + [if info.unmapped then info else Put(info, Digit(e.lpn, h), e.slot)])
  {
    hide NandPages, Quotient, PtrsAre, Put;
    var qs, q := NandPages(pages, h), Quotient(e.lpn, h);
    assert q !in qs by {
      forall i | 0 <= i < |qs| ensures qs[i] != q { assert ReadGroupIs(lpa, pages, h, qs[i], groups[i]); }
    }
    NandPageIff(pages, h, q);
    BatchLast(pages, e, h);
    assert ReadGroupIs(lpa, pages, h, q, info) by { NoPtrsAre(pages, h, q); }
    ReadGroupPut(lpa, pages, h, q, info, e);
    forall i | 0 <= i < |groups| ensures ReadGroupIs(lpa, pages + [e], h, qs[i], groups[i]) {
      assert ReadGroupIs(lpa, pages, h, qs[i], groups[i]);
      ReadGroupPut(lpa, pages, h, qs[i], groups[i], e);
    }
  }

  lemma NoPtrsAre(pages: seq<WbcPage>, h: nat, q: nat)
    requires 0 < h && q !in NandPages(pages, h)
    ensures PtrsAre(NoPtrs(h), pages, h, q)
  {
    NandPageIff(pages, h, q);
  }

  lemma {:induction false} RangePtr(start: nat, n: nat, h: nat, q: nat, o: nat)
    requires 0 < h
    ensures PtrOf(RangePages(start, n), h, q, o).Some? ==>
              var d := PtrOf(RangePages(start, n), h, q, o).value;
              d < n && Quotient(start + d, h) == q && Digit(start + d, h) == o
  {
    if n == 0 {
      RangePagesNone(start);
    } else {
      RangePagesNext(start, n - 1);
      BatchLast(RangePages(start, n - 1), WbcPage(start + n - 1, n - 1, true), h);
      RangePtr(start, n - 1, h, q, o);
    }
  }

  lemma {:induction false} RangePtrAt(start: nat, n: nat, h: nat, d: nat)
    requires 0 < h && d < n
    ensures PtrOf(RangePages(start, n), h, Quotient(start + d, h), Digit(start + d, h)) == Some(d)
  {
    hide PtrOf, RangePages, Quotient, Digit;
    RangePagesNext(start, n - 1);
    PtrOfLast(RangePages(start, n - 1), WbcPage(start + n - 1, n - 1, true), h, start + d);
    if d < n - 1 { RangePtrAt(start, n - 1, h, d); }
  }

  lemma PtrOfLast(pages: seq<WbcPage>, e: WbcPage, h: nat, l: nat)
    requires 0 < h
    ensures PtrOf(pages + [e], h, Quotient(l, h), Digit(l, h)) ==
            if l == e.lpn then Some(e.slot) else PtrOf(pages, h, Quotient(l, h), Digit(l, h))
  {
    assert (pages + [e])[..|pages|] == pages;
    HostPageUnique(l, e.lpn, h);
  }

  // The result of the read operation, and where every requested page's NAND page is in the list.
  lemma ReadGroupsMean<P>(g: Geometry, h: nat, m: Media<seq<P>>, start: nat, n: nat, groups: seq<PageInfo>,
          op: seq<PageOp>, toZero: seq<bool>, bufs: seq<seq<P>>)
    requires WideSound(g, h, m) && WideBuffers(bufs, h) && n <= MDTS_PAGES
    requires ReadGrouped(m.t.lpa, start, n, h, groups, op, toZero)
    ensures SlotsIn(op, |bufs|) && PagesIn(op, m.flash) && WideBuffers(ReadInto(m.flash, op, bufs), h)
    ensures forall i | 0 <= i < |groups| ::
              groups[i].nandPage < |m.t.lpa| && m.t.lpa[groups[i].nandPage] == groups[i].current
              && (!groups[i].unmapped ==>
                groups[i].current in m.flash && ReadInto(m.flash, op, bufs)[i] == m.flash[groups[i].current])
  {
    hide Core, NandPages;
    var need, ppas, qs := MappedOnes(groups), Currents(groups), NandPages(RangePages(start, n), h);
    forall i | 0 <= i < |groups|
      ensures need[i] == !groups[i].unmapped && groups[i].nandPage < |m.t.lpa|
      ensures m.t.lpa[groups[i].nandPage] == groups[i].current
      ensures need[i] ==> ppas[i] in m.flash
    {
      assert ReadGroupIs(m.t.lpa, RangePages(start, n), h, qs[i], groups[i]);
      if need[i] { MappedInFlash(g, m, qs[i]); }
    }
    SelectReads(m.flash, need, ppas, bufs);
  }

  lemma MappedInFlash<Q>(g: Geometry, m: Media<Q>, q: nat)
    requires Sound(g, m) && q < |m.t.lpa| && !Unmapped(m.t, q)
    ensures m.t.lpa[q] in m.flash
  {
    assert LpaAgrees(g, m.t.ppa, q, m.t.lpa[q]);
  }

  // What the copy loop has done after k NAND pages.
  ghost predicate CopiedUpTo<P>(start: nat, n: nat, h: nat, groups: seq<PageInfo>, temp: seq<seq<P>>, ram0: seq<P>,
          k: nat, ram: seq<P>) {
    && 0 < h && |ram| == |ram0| && n <= |ram| && |groups| <= |temp| && WideBuffers(temp, h)
    && (forall d | n <= d < |ram| :: ram[d] == ram0[d])
    && (forall d, i | 0 <= d < n && 0 <= i < |groups| && groups[i].nandPage == Quotient(start + d, h) ::
          ram[d] == if i < k && !groups[i].unmapped then temp[i][Digit(start + d, h)] else ram0[d])
  }

  lemma NothingCopied<P>(start: nat, n: nat, h: nat, groups: seq<PageInfo>, temp: seq<seq<P>>, ram: seq<P>)
    requires 0 < h && n <= |ram| && |groups| <= |temp| && WideBuffers(temp, h)
    ensures CopiedUpTo(start, n, h, groups, temp, ram, 0, ram)
  {
  }

  lemma ReadSizes(lpa: seq<Ppa>, start: nat, n: nat, h: nat, groups: seq<PageInfo>, op: seq<PageOp>, toZero: seq<bool>)
    requires ReadGrouped(lpa, start, n, h, groups, op, toZero)
    ensures |toZero| == n && |groups| <= n
  {
  }

  lemma WideAt<P>(g: Geometry, h: nat, m: Media<seq<P>>)
    requires WideSound(g, h, m)
    ensures 0 < h
  {
  }

  lemma GroupAt(lpa: seq<Ppa>, start: nat, n: nat, h: nat, groups: seq<PageInfo>, op: seq<PageOp>, toZero: seq<bool>,
          k: nat)
    requires ReadGrouped(lpa, start, n, h, groups, op, toZero) && k < |groups|
    ensures groups[k].nandPage < |lpa| && (groups[k].unmapped <==> lpa[groups[k].nandPage].chn == UNMAPPED_CHN)
    ensures !groups[k].unmapped ==> PtrsAre(groups[k].ptrs, RangePages(start, n), h, groups[k].nandPage)
    ensures forall i | 0 <= i < |groups| && i != k :: groups[i].nandPage != groups[k].nandPage
  {
    var qs := NandPages(RangePages(start, n), h);
    assert ReadGroupIs(lpa, RangePages(start, n), h, qs[k], groups[k]);
    forall i | 0 <= i < |groups| && i != k ensures groups[i].nandPage != groups[k].nandPage {
      assert ReadGroupIs(lpa, RangePages(start, n), h, qs[i], groups[i]);
      assert qs[i] != qs[k];
    }
  }

  lemma CopiedOneMore<P>(lpa: seq<Ppa>, start: nat, n: nat, h: nat, groups: seq<PageInfo>, op: seq<PageOp>,
          toZero: seq<bool>, temp: seq<seq<P>>, ram0: seq<P>, k: nat, before: seq<P>, after: seq<P>)
    requires ReadGrouped(lpa, start, n, h, groups, op, toZero) && k < |groups|
    requires CopiedUpTo(start, n, h, groups, temp, ram0, k, before) && |after| == |before|
    requires forall d | 0 <= d < |after| ::
               after[d] == if !groups[k].unmapped && d < n && Quotient(start + d, h) == groups[k].nandPage
                           then temp[k][Digit(start + d, h)] else before[d]
    ensures CopiedUpTo(start, n, h, groups, temp, ram0, k + 1, after)
  {
    hide ReadGrouped;
    GroupAt(lpa, start, n, h, groups, op, toZero, k);
  }

  // Every requested page's NAND page is in the list.
  lemma GroupOf(lpa: seq<Ppa>, start: nat, n: nat, h: nat, groups: seq<PageInfo>, op: seq<PageOp>, toZero: seq<bool>,
          d: nat) returns (i: nat)
    requires ReadGrouped(lpa, start, n, h, groups, op, toZero) && d < n && 0 < h
    ensures i < |groups| && groups[i].nandPage == Quotient(start + d, h) < |lpa|
    ensures |toZero| == n && toZero[d] == groups[i].unmapped == (lpa[Quotient(start + d, h)].chn == UNMAPPED_CHN)
  {
    hide Quotient, Digit, NandPages, PtrsAre, Select, RangePages;
    var pages, q := RangePages(start, n), Quotient(start + d, h);
    RangePtrAt(start, n, h, d);
    NandPageIff(pages, h, q);
    i := IndexOf(NandPages(pages, h), q);
    assert ReadGroupIs(lpa, pages, h, q, groups[i]);
  }

  lemma CopiedAt<P>(g: Geometry, h: nat, m: Media<seq<P>>, start: nat, n: nat, groups: seq<PageInfo>, op: seq<PageOp>,
          toZero: seq<bool>, temp: seq<seq<P>>, ram0: seq<P>, ram: seq<P>, d: nat)
    requires WideSound(g, h, m) && ReadGrouped(m.t.lpa, start, n, h, groups, op, toZero) && d < n <= |ram| == |ram0|
    requires CopiedUpTo(start, n, h, groups, temp, ram0, |groups|, ram)
    requires forall i | 0 <= i < |groups| && !groups[i].unmapped ::
               groups[i].nandPage < |m.t.lpa| && m.t.lpa[groups[i].nandPage] in m.flash
                 && temp[i] == m.flash[m.t.lpa[groups[i].nandPage]]
    ensures Quotient(start + d, h) < |m.t.lpa| && |toZero| == n
    ensures toZero[d] <==> HostContent(g, h, m, start + d) == None
    ensures ram[d] == match HostContent(g, h, m, start + d) case Some(x) => x case None => ram0[d]
  {
    hide ReadGrouped, Quotient, Core;
    var i := GroupOf(m.t.lpa, start, n, h, groups, op, toZero, d);
  }

  lemma AllCopied<P>(g: Geometry, h: nat, m: Media<seq<P>>, start: nat, n: nat, groups: seq<PageInfo>,
          op: seq<PageOp>, toZero: seq<bool>, temp: seq<seq<P>>, ram0: seq<P>, ram: seq<P>)
    requires WideSound(g, h, m) && ReadGrouped(m.t.lpa, start, n, h, groups, op, toZero) && n <= |ram| == |ram0|
    requires CopiedUpTo(start, n, h, groups, temp, ram0, |groups|, ram)
    requires forall i | 0 <= i < |groups| && !groups[i].unmapped ::
               groups[i].nandPage < |m.t.lpa| && m.t.lpa[groups[i].nandPage] in m.flash
                 && temp[i] == m.flash[m.t.lpa[groups[i].nandPage]]
    ensures ReadResult(g, h, m, start, n, toZero, ram0, ram)
  {
    hide ReadGroupsAre, Quotient, WideSound, CopiedUpTo, HostContent;
    forall d | 0 <= d < n ensures DeliveredAt(g, h, m, start, toZero, ram0, ram, d) {
      CopiedAt(g, h, m, start, n, groups, op, toZero, temp, ram0, ram, d);
    }
    AfterRequest(start, n, h, groups, temp, ram0, ram);
  }

  lemma AfterRequest<P>(start: nat, n: nat, h: nat, groups: seq<PageInfo>, temp: seq<seq<P>>, ram0: seq<P>, ram: seq<P>)
    requires CopiedUpTo(start, n, h, groups, temp, ram0, |groups|, ram)
    ensures n <= |ram| == |ram0| && forall d | n <= d < |ram| :: ram[d] == ram0[d]
  {
  }

  ghost predicate DeliveredAt<P>(g: Geometry, h: nat, m: Media<seq<P>>, start: nat, toZero: seq<bool>, ram0: seq<P>,
          ram: seq<P>, d: nat)
    requires WideSound(g, h, m) && d < |toZero| <= |ram| == |ram0|
  {
    && Quotient(start + d, h) < |m.t.lpa|
    && (toZero[d] <==> HostContent(g, h, m, start + d) == None)
    && ram[d] == match HostContent(g, h, m, start + d) case Some(x) => x case None => ram0[d]
  }

  /** What a read of n host pages delivers: each mapped one's content; an unmapped one's slot is left as it was. */
  ghost predicate ReadResult<P>(g: Geometry, h: nat, m: Media<seq<P>>, start: nat, n: nat, toZero: seq<bool>,
          ram0: seq<P>, ram: seq<P>)
    requires WideSound(g, h, m)
  {
    && |toZero| == n <= |ram| == |ram0|
    && (forall d | 0 <= d < n :: DeliveredAt(g, h, m, start, toZero, ram0, ram, d))
    && (forall d | n <= d < |ram| :: ram[d] == ram0[d])
  }

  // ---- Copying one NAND page's parts out ---------------------------------------------------------

  ghost predicate Scattered<P>(start: nat, n: nat, h: nat, q: nat, ih: nat, src: seq<P>, ram0: seq<P>, ram: seq<P>) {
    && 0 < h == |src| && n <= |ram| == |ram0|
    && forall d | 0 <= d < |ram| ::
         ram[d] == if d < n && Quotient(start + d, h) == q && Digit(start + d, h) < ih then src[Digit(start + d, h)]
           else ram0[d]
  }

  lemma NothingScattered<P>(start: nat, n: nat, h: nat, q: nat, src: seq<P>, ram: seq<P>)
    requires 0 < h == |src| && n <= |ram|
    ensures Scattered(start, n, h, q, 0, src, ram, ram)
  {
    hide Quotient;
  }

  lemma PtrsLength(ptrs: seq<Option<nat>>, pages: seq<WbcPage>, h: nat, q: nat)
    requires 0 < h && PtrsAre(ptrs, pages, h, q)
    ensures |ptrs| == h
  {
  }

  lemma ScatterNext<P>(ptrs: seq<Option<nat>>, start: nat, n: nat, h: nat, q: nat, ih: nat, src: seq<P>, ram0: seq<P>,
          ram: seq<P>)
    requires Scattered(start, n, h, q, ih, src, ram0, ram) && ih < h && PtrsAre(ptrs, RangePages(start, n), h, q)
    ensures ptrs[ih].Some? ==>
              ptrs[ih].value < |ram| && Scattered(start, n, h, q, ih + 1, src, ram0, ram[ptrs[ih].value := src[ih]])
    ensures ptrs[ih].None? ==> Scattered(start, n, h, q, ih + 1, src, ram0, ram)
  {
    hide Quotient, Digit, PtrOf, RangePages;
    RangePtr(start, n, h, q, ih);
    var ram' := if ptrs[ih].Some? then ram[ptrs[ih].value := src[ih]] else ram;
    forall d | 0 <= d < |ram'|
      ensures ram'[d] ==
                if d < n && Quotient(start + d, h) == q && Digit(start + d, h) < ih + 1 then src[Digit(start + d, h)]
                else ram0[d]
    {
      if d < n { RangePtrAt(start, n, h, d); }
    }
  }

  lemma AllScattered<P>(start: nat, n: nat, h: nat, q: nat, src: seq<P>, ram0: seq<P>, ram: seq<P>)
    requires Scattered(start, n, h, q, h, src, ram0, ram)
    ensures forall d | 0 <= d < |ram| ::
              ram[d] == if d < n && Quotient(start + d, h) == q then src[Digit(start + d, h)] else ram0[d]
  {
    hide Quotient;
  }
}
