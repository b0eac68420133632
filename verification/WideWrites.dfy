/** Writes one after another through the write-back cache onto NAND pages of several host pages. */
module WideWrites {
  import opened Wrappers
  import opened Geometry
  import opened EqualPages
  import opened WholeDevice
  import opened BufferManager
  import U = UnequalPages

  /** One write's pass through the device: the cache entries as they were left before they were cleared, and the page
      buffer once the write's pages have been copied in. */
  datatype Pass<P> = Pass(w: WriteReq<P>, wbc: seq<WbcPage>, buf: seq<P>)

  ghost predicate PassFits<P>(x: Pass<P>, hostPages: nat) {
    WriteFits(hostPages, x.w) && |x.wbc| == WBC_PAGES && CopiedIn(x.buf, x.w, |x.w.data|)
  }

  ghost predicate AllFit<P>(xs: seq<Pass<P>>, hostPages: nat) { forall i | 0 <= i < |xs| :: PassFits(xs[i], hostPages) }

  // The batch that the flush of this write programs.
  function BatchFrom<P>(x: Pass<P>): U.Batch<P>
    requires |x.w.data| <= |x.wbc|
  {
    U.Batch(U.Taken(FillWbc(ClearWbc(x.wbc), x.w.slba, |x.w.data|), |x.w.data|), x.buf)
  }

  ghost function Batches<P>(xs: seq<Pass<P>>): (bs: seq<U.Batch<P>>)
    requires forall i | 0 <= i < |xs| :: |xs[i].w.data| <= |xs[i].wbc|
    ensures |bs| == |xs|
  {
    seq(|xs|, i requires 0 <= i < |xs| => BatchFrom(xs[i]))
  }

  // The last of the writes that covers host page l, or -1.
  ghost function LastWriter<P>(xs: seq<Pass<P>>, l: nat): (j: int)
    ensures -1 <= j < |xs| && (0 <= j ==> Covers(xs[j].w, l)) && forall i | j < i < |xs| :: !Covers(xs[i].w, l)
  {
    if xs == [] then -1
    else
      var n := |xs| - 1;
      if Covers(xs[n].w, l) then n else LastWriter(xs[..n], l)
  }

  lemma BatchFromFits<P>(x: Pass<P>, h: nat, lpns: nat)
    requires 0 < h && PassFits(x, lpns * h)
    ensures BatchFrom(x) == U.Batch(U.RangePages(x.w.slba, |x.w.data|), x.buf)
    ensures U.BatchFits(BatchFrom(x), h, lpns)
  {
    hide U.Taken, ClearWbc, FillWbc;
    var n := |x.w.data|;
    FilledNamesPagesOnce(x.wbc, x.w.slba, n - 1);
    U.RangePagesDistinct(x.w.slba, n);
    var pages := U.RangePages(x.w.slba, n);
    forall i | 0 <= i < |pages| ensures Quotient(pages[i].lpn, h) < lpns {
      QuotientBelow(x.w.slba + i, lpns, h);
    }
  }

  lemma {:induction false} RangeWriteAt<P>(disk: map<nat, P>, start: nat, n: nat, ram: seq<P>, l: nat)
    requires n <= |ram|
    ensures U.SlotsBelow(U.RangePages(start, n), |ram|)
    ensures var after := U.DiskWrite(disk, U.RangePages(start, n), ram);
            if start <= l < start + n then l in after && after[l] == ram[l - start]
            else (l in after <==> l in disk) && (l in disk ==> after[l] == disk[l])
  {
    if n == 0 {
      U.RangePagesNone(start);
    } else {
      U.RangePagesNext(start, n - 1);
      RangeWriteAt(disk, start, n - 1, ram, l);
      assert U.RangePages(start, n)[..n - 1] == U.RangePages(start, n - 1);
    }
  }

  ghost predicate DiskShows<P>(disk: map<nat, P>, after: map<nat, P>, xs: seq<Pass<P>>, l: nat) {
    var j := LastWriter(xs, l);
    if 0 <= j then l in after && after[l] == xs[j].w.data[l - xs[j].w.slba]
    else (l in after <==> l in disk) && (l in disk ==> after[l] == disk[l])
  }

  lemma BatchesFit<P>(xs: seq<Pass<P>>, h: nat, lpns: nat)
    requires 0 < h && AllFit(xs, lpns * h)
    ensures U.BatchesFit(Batches(xs), h, lpns)
    ensures forall i | 0 <= i < |xs| :: U.SlotsBelow(Batches(xs)[i].pages, |Batches(xs)[i].ram|)
  {
    hide U.BatchFits, BatchFrom;
    forall i | 0 <= i < |xs| ensures U.BatchFits(Batches(xs)[i], h, lpns) { BatchFromFits(xs[i], h, lpns); }
    BatchesHaveSlots(Batches(xs), h, lpns);
  }

  lemma OneMoreShows<P>(disk: map<nat, P>, before: map<nat, P>, xs: seq<Pass<P>>, x: Pass<P>, l: nat, h: nat, lpns: nat)
    requires 0 < h && PassFits(x, lpns * h) && DiskShows(disk, before, xs, l)
    ensures U.SlotsBelow(BatchFrom(x).pages, |BatchFrom(x).ram|)
    ensures DiskShows(disk, U.DiskWrite(before, BatchFrom(x).pages, BatchFrom(x).ram), xs + [x], l)
  {
    hide *;
    BatchFromFits(x, h, lpns);
    BufHolds(x, lpns * h);
    RangeWriteAt(before, x.w.slba, |x.w.data|, x.buf, l);
    ShowsNext(disk, before, U.DiskWrite(before, U.RangePages(x.w.slba, |x.w.data|), x.buf), xs, x, l);
  }

  lemma BufHolds<P>(x: Pass<P>, hostPages: nat)
    requires PassFits(x, hostPages)
    ensures |x.w.data| <= |x.wbc| && |x.w.data| <= |x.buf| && forall i | 0 <= i < |x.w.data| :: x.buf[i] == x.w.data[i]
  {
    forall i | 0 <= i < |x.w.data| ensures x.buf[i] == x.w.data[i] {
      assert x.buf[..|x.w.data|][i] == x.w.data[..|x.w.data|][i];
    }
  }

  lemma ShowsNext<P>(disk: map<nat, P>, before: map<nat, P>, after: map<nat, P>, xs: seq<Pass<P>>, x: Pass<P>, l: nat)
    requires DiskShows(disk, before, xs, l)
    requires if x.w.slba <= l < x.w.slba + |x.w.data| then l in after && after[l] == x.w.data[l - x.w.slba]
             else (l in after <==> l in before) && (l in before ==> after[l] == before[l])
    ensures DiskShows(disk, after, xs + [x], l)
  {
    assert (xs + [x])[..|xs|] == xs && (xs + [x])[|xs|] == x;
    if 0 <= LastWriter(xs, l) { assert (xs + [x])[LastWriter(xs, l)] == xs[LastWriter(xs, l)]; }
  }

  lemma {:induction false} DiskAfter<P>(disk: map<nat, P>, xs: seq<Pass<P>>, l: nat, h: nat, lpns: nat)
    requires 0 < h && AllFit(xs, lpns * h)
    ensures forall i | 0 <= i < |xs| :: U.SlotsBelow(Batches(xs)[i].pages, |Batches(xs)[i].ram|)
    ensures DiskShows(disk, U.DiskRun(disk, Batches(xs)), xs, l)
  {
    hide BatchFrom, DiskShows, U.DiskWrite, U.BatchesFit, CopiedIn;
    BatchesFit(xs, h, lpns);
    if xs == [] {
      NothingShows(disk, l);
    } else {
      var n := |xs| - 1;
      DiskAfter(disk, xs[..n], l, h, lpns);
      assert Batches(xs)[..n] == Batches(xs[..n]);
      OneMoreShows(disk, U.DiskRun(disk, Batches(xs[..n])), xs[..n], xs[n], l, h, lpns);
      assert xs[..n] + [xs[n]] == xs;
    }
  }

  lemma NothingShows<P>(disk: map<nat, P>, l: nat)
    ensures DiskShows(disk, disk, [], l)
  {
  }

  lemma BatchesHaveSlots<P>(bs: seq<U.Batch<P>>, h: nat, lpns: nat)
    requires 0 < h && U.BatchesFit(bs, h, lpns)
    ensures forall i | 0 <= i < |bs| :: U.SlotsBelow(bs[i].pages, |bs[i].ram|)
  {
    forall i | 0 <= i < |bs| ensures U.SlotsBelow(bs[i].pages, |bs[i].ram|) {
      assert U.BatchFits(bs[i], h, lpns);
    }
  }

  /** Read after write with larger NAND pages: after any run of writes through the cache, a host page reads as the last
      write that covers it, and one that no write covers and that was there before reads as before, whatever older
      entries the cache held, and whatever the page buffer and the modify buffers held. */
  lemma WideReadAfterWrite<P(!new)>(g: Geometry, h: nat, m: Media<seq<P>>, rmp: seq<seq<P>>, xs: seq<Pass<P>>, l: nat)
    requires U.WideSound(g, h, m) && U.WideBuffers(rmp, h) && AllFit(xs, |m.t.lpa| * h) && Quotient(l, h) < |m.t.lpa|
    requires U.NandPagesUsed(Batches(xs), h) <= FreePages(g, m.t)
    ensures U.BatchesFit(Batches(xs), h, |m.t.lpa|)
    ensures var now := U.HostContent(g, h, U.FlushRun(g, h, m, rmp, Batches(xs)).media, l);
            var j := LastWriter(xs, l);
            if 0 <= j then now == Some(xs[j].w.data[l - xs[j].w.slba])
            else U.HostContent(g, h, m, l).Some? ==> now == U.HostContent(g, h, m, l)
  {
    hide U.FlushRun, U.NandPagesUsed, FreePages, U.DiskRun, U.BatchesFit, U.HostContent, U.WideSound, U.Holds;
    hide DiskShows;
    SomePages(g, h, m);
    BatchesFit(xs, h, |m.t.lpa|);
    var was := U.HostContent(g, h, m, l);
    var disk := if was.Some? then map[l := was.value] else map[];
    HoldsOne(g, h, m, l, disk);
    DiskAfter(disk, xs, l, h, |m.t.lpa|);
    U.FlushRunRefines(g, h, m, rmp, Batches(xs), disk);
    ShownIsHeld(g, h, U.FlushRun(g, h, m, rmp, Batches(xs)).media, disk, U.DiskRun(disk, Batches(xs)), xs, l);
  }

  lemma SomePages<P>(g: Geometry, h: nat, m: Media<seq<P>>)
    requires U.WideSound(g, h, m)
    ensures 0 < h
  {
  }

  lemma HoldsOne<P(!new)>(g: Geometry, h: nat, m: Media<seq<P>>, l: nat, disk: map<nat, P>)
    requires U.WideSound(g, h, m) && Quotient(l, h) < |m.t.lpa|
    requires var was := U.HostContent(g, h, m, l); disk == if was.Some? then map[l := was.value] else map[]
    ensures U.Holds(g, h, m, disk)
  {
    hide U.HostContent, U.WideSound;
  }

  lemma ShownIsHeld<P(!new)>(g: Geometry, h: nat, m: Media<seq<P>>, disk: map<nat, P>, after: map<nat, P>,
          xs: seq<Pass<P>>, l: nat)
    requires U.WideSound(g, h, m) && U.Holds(g, h, m, after) && DiskShows(disk, after, xs, l)
    requires Quotient(l, h) < |m.t.lpa|
    ensures var j := LastWriter(xs, l);
            && (0 <= j ==> U.HostContent(g, h, m, l) == Some(xs[j].w.data[l - xs[j].w.slba]))
            && (j < 0 && l in disk ==> U.HostContent(g, h, m, l) == Some(disk[l]))
  {
    hide U.HostContent, U.WideSound;
  }
}
