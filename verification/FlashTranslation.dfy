/** The page-mapping translation layer over its tables in memory. */
module FlashTranslation {
  import opened Geometry
  import opened MappingTables

  class Ftl {
    const g: Geometry
    const lpaTable: array<Ppa>
    const ppaTable: array5<Entry>
    const lastPage: array3<Ppa>
    const blkTable: array4<BlockMeta>
    var lastSearched: Ppa
    var selected: Ppa
    var totals: Totals

    ghost predicate Shaped() {
      && g.Valid()
      && lpaTable.Length <= FREE_PPA
      && ppaTable.Length0 == g.channels && ppaTable.Length1 == g.dies && ppaTable.Length2 == g.planes
      && ppaTable.Length3 == g.blocks && ppaTable.Length4 == g.pages
      && lastPage.Length0 == g.channels && lastPage.Length1 == g.dies && lastPage.Length2 == g.planes
      && blkTable.Length0 == g.channels && blkTable.Length1 == g.dies && blkTable.Length2 == g.planes
      && blkTable.Length3 == g.blocks
    }

    ghost function PpaMap(): map<Ppa, Entry>
      requires Shaped()
      reads ppaTable
    {
      map p | p in AllPages(g) :: ppaTable[p.chn, p.die, p.plane, p.block, p.page]
    }

    ghost function CursorMap(): map<PlaneId, Ppa>
      requires Shaped()
      reads lastPage
    {
      map q | q in AllPlanes(g) :: lastPage[q.chn, q.die, q.plane]
    }

    ghost function BlkMap(): map<BlockId, BlockMeta>
      requires Shaped()
      reads blkTable
    {
      map b | b in AllBlocks(g) :: blkTable[b.chn, b.die, b.plane, b.block]
    }

    /** The tables' contents. */
    ghost function View(): Tables
      requires Shaped()
      reads this, lpaTable, ppaTable, lastPage, blkTable
    {
      Tables(lpaTable[..], PpaMap(), CursorMap(), BlkMap(), lastSearched, selected, totals)
    }

    ghost predicate Valid()
      reads this, lpaTable, ppaTable, lastPage, blkTable
    {
      Shaped() && Core(g, View())
    }

    ghost function Repr(): set<object> { {this, lpaTable, ppaTable, lastPage, blkTable} }

    /** A fresh medium's tables, as the table generator writes them, followed by initialize_ftl. */
    constructor (g: Geometry, lpns: nat)
      requires g.Valid() && lpns <= FREE_PPA
      ensures this.g == g && Shaped() && fresh(Repr()) && lpaTable.Length == lpns
      ensures View() == NewMedia(g, lpns, 1)
    {
      this.g := g;
      lpaTable := new Ppa[lpns](_ => Ppa(UNMAPPED_CHN, 0, 0, 0, 0));
      ppaTable := new Entry[g.channels, g.dies, g.planes, g.blocks, g.pages]((_, _, _, _, _) => FREE_PPA);
      lastPage := new Ppa[g.channels, g.dies, g.planes];
      blkTable := new BlockMeta[g.channels, g.dies, g.planes, g.blocks]((_, _, _, _) => BlockMeta(0, 0));
      new;
      lastSearched, selected, totals := Ppa(0, 0, 0, 0, 0), Ppa(0, 0, 0, 0, 0), Totals(0, 0, 0);
      ResetCursors();
      BlankView();
      ReserveFirstPage();
    }

    lemma BlankView()
      requires Shaped()
      requires forall l | 0 <= l < lpaTable.Length :: lpaTable[l] == Ppa(UNMAPPED_CHN, 0, 0, 0, 0)
      requires forall c, d, p, b, n | 0 <= c < g.channels && 0 <= d < g.dies && 0 <= p < g.planes && 0 <= b < g.blocks
                                      && 0 <= n < g.pages ::
                 ppaTable[c, d, p, b, n] == FREE_PPA
      requires forall c, d, p, b | 0 <= c < g.channels && 0 <= d < g.dies && 0 <= p < g.planes && 0 <= b < g.blocks ::
                 blkTable[c, d, p, b] == BlockMeta(0, 0)
      requires forall c, d, p | 0 <= c < g.channels && 0 <= d < g.dies && 0 <= p < g.planes ::
                 lastPage[c, d, p] == Ppa(c, d, p, 0, 0)
      requires lastSearched == selected == Ppa(0, 0, 0, 0, 0) && totals == Totals(0, 0, 0)
      ensures View() == Blank(g, lpaTable.Length)
    {
      var t := Blank(g, lpaTable.Length);
      assert lpaTable[..] == t.lpa;
      assert PpaMap() == t.ppa;
      assert CursorMap() == t.cursor;
      assert BlkMap() == t.blk;
    }

    // The rest of initialize_ftl: page 0 becomes the header page.
    method ReserveFirstPage()
      requires Shaped() && View() == Blank(g, lpaTable.Length)
      modifies Repr()
      ensures View() == NewMedia(g, lpaTable.Length, 1)
    {
      ReservingFirstPage(g, lpaTable.Length);
      var first := Ppa(0, 0, 0, 0, 0);
      SetReservedPpa(first);
      IncValidPages(first);
      totals := Totals(g.TotalPages() - 1, 1, 0);
      first := first.(page := first.page + 1);
      selected := first;
      SetLastPage(first);
      lastSearched := selected;
    }

    method SetReservedPpa(p: Ppa)
      requires Shaped() && InRange(g, p)
      modifies ppaTable
      ensures View() == old(View()).(ppa := old(View()).ppa[p := RESERVED_PPA])
    {
      ppaTable[p.chn, p.die, p.plane, p.block, p.page] := RESERVED_PPA;
      assert PpaMap() == old(PpaMap())[p := RESERVED_PPA];
    }

    method SetLastPage(p: Ppa)
      requires Shaped() && PlaneInRange(g, PlaneOf(p))
      modifies lastPage
      ensures View() == old(View()).(cursor := old(View()).cursor[PlaneOf(p) := p])
    {
      lastPage[p.chn, p.die, p.plane] := p;
      assert CursorMap() == old(CursorMap())[PlaneOf(p) := p];
    }

    method ResetCursors()
      requires Shaped()
      modifies lastPage
      ensures forall c, d, p | 0 <= c < g.channels && 0 <= d < g.dies && 0 <= p < g.planes ::
                lastPage[c, d, p] == Ppa(c, d, p, 0, 0)
    {
      var ichn := 0;
      while ichn < g.channels
        invariant 0 <= ichn <= g.channels
        invariant forall c, d, p | 0 <= c < ichn && 0 <= d < g.dies && 0 <= p < g.planes ::
                    lastPage[c, d, p] == Ppa(c, d, p, 0, 0)
      {
        var idie := 0;
        while idie < g.dies
          invariant 0 <= idie <= g.dies
          invariant forall c, d, p | 0 <= c < ichn && 0 <= d < g.dies && 0 <= p < g.planes ::
                      lastPage[c, d, p] == Ppa(c, d, p, 0, 0)
          invariant forall d, p | 0 <= d < idie && 0 <= p < g.planes :: lastPage[ichn, d, p] == Ppa(ichn, d, p, 0, 0)
        {
          var iplane := 0;
          while iplane < g.planes
            invariant 0 <= iplane <= g.planes
            invariant forall c, d, p | 0 <= c < ichn && 0 <= d < g.dies && 0 <= p < g.planes ::
                        lastPage[c, d, p] == Ppa(c, d, p, 0, 0)
            invariant forall d, p | 0 <= d < idie && 0 <= p < g.planes :: lastPage[ichn, d, p] == Ppa(ichn, d, p, 0, 0)
            invariant forall p | 0 <= p < iplane :: lastPage[ichn, idie, p] == Ppa(ichn, idie, p, 0, 0)
            {
            lastPage[ichn, idie, iplane] := Ppa(ichn, idie, iplane, 0, 0);
            iplane := iplane + 1;
          }
          idie := idie + 1;
        }
        ichn := ichn + 1;
      }
    }

    /** The block and page loops of find_free_page, from a plane's cursor. */
    method ScanFrom(c: Ppa) returns (ok: bool, iPpa: Ppa)
      requires Shaped() && CursorPlaced(g, PlaneOf(c), c) && PlaneInRange(g, PlaneOf(c))
      ensures ok ==> ScanPlane(g, PpaMap(), c, g.blocks, g.blocks - 1) == Hit(iPpa) && PlaneOf(iPpa) == PlaneOf(c)
      ensures !ok ==> ScanPlane(g, PpaMap(), c, g.blocks, g.blocks - 1) == Miss && iPpa == c.(page := 0)
    {
      ghost var m := PpaMap();
      iPpa := c;
      var i := 0;
      while i < g.blocks
        invariant 0 <= i <= g.blocks
        invariant PlaneOf(iPpa) == PlaneOf(c) && iPpa.block < g.blocks && iPpa.page <= g.pages
        invariant if i == 0 then iPpa == c else
                  iPpa.page == 0 && iPpa.block == if c.block + i < g.blocks then c.block + i else c.block + i - g.blocks
        invariant ScanPlane(g, m, c, g.blocks, g.blocks - 1) == ScanPlane(g, m, iPpa, g.blocks - i, g.blocks - 1)
      {
        ghost var start := iPpa;
        while iPpa.page < g.pages
          invariant iPpa == start.(page := iPpa.page) && iPpa.page <= g.pages
          invariant ScanBlock(g, m, start) == ScanBlock(g, m, iPpa)
        {
          assert InRange(g, iPpa) && m[iPpa] == ppaTable[iPpa.chn, iPpa.die, iPpa.plane, iPpa.block, iPpa.page];
          if ppaTable[iPpa.chn, iPpa.die, iPpa.plane, iPpa.block, iPpa.page] == FREE_PPA {
            return true, iPpa;
          }
          iPpa := iPpa.(page := iPpa.page + 1);
        }
        iPpa := iPpa.(block := iPpa.block + 1, page := 0);
        if iPpa.block >= g.blocks {
          iPpa := iPpa.(block := 0);
        }
        i := i + 1;
      }
      ok := false;
    }

    method FindFreePage() returns (ok: bool, newPpa: Ppa)
      requires Shaped() && Placed(g, View())
      modifies this`lastSearched, this`selected, lastPage
      ensures NextPlane(g, PlaneOf(old(lastSearched))) in old(CursorMap())
      ensures ok ==> ScanNextPlane(g, old(View())) == Hit(newPpa) && View() == Take(old(View()), newPpa)
      ensures !ok ==> ScanNextPlane(g, old(View())) == Miss && View() == NoRoom(g, old(View()))
    {
      hide PpaMap, CursorMap, BlkMap, ScanPlane;
      newPpa := Ppa(0, 0, 0, 0, 0);
      var iPpa := NextCursor();
      ok, iPpa := ScanFrom(iPpa);
      if ok {
        newPpa := iPpa;
        iPpa := iPpa.(page := iPpa.page + 1);
        selected := iPpa;
        lastSearched := iPpa;
        SetLastPage(iPpa);
      } else {
        lastSearched := iPpa;
      }
    }

    // The cursor of the next plane in odometer order.
    method NextCursor() returns (iPpa: Ppa)
      requires Shaped() && Placed(g, View())
      ensures var q := NextPlane(g, PlaneOf(lastSearched));
              PlaneInRange(g, q) && q in CursorMap() && iPpa == CursorMap()[q] && CursorPlaced(g, q, iPpa)
    {
      var nextChn := lastSearched.chn + 1;
      var nextDie := lastSearched.die;
      var nextPlane := lastSearched.plane;
      if nextChn >= g.channels {
        nextChn := 0;
        nextDie := nextDie + 1;
        if nextDie >= g.dies {
          nextDie := 0;
          nextPlane := nextPlane + 1;
          if nextPlane >= g.planes {
            nextPlane := 0;
          }
        }
      }
      ghost var q := PlaneId(nextChn, nextDie, nextPlane);
      assert q == NextPlane(g, PlaneOf(lastSearched)) && PlaneInRange(g, q);
      iPpa := lastPage[nextChn, nextDie, nextPlane];
      assert iPpa == View().cursor[q] && CursorPlaced(g, q, View().cursor[q]);
    }

    /** Terminates with a page that was FREE whenever there is one. */
    method GetFreePpa() returns (newPpa: Ppa)
      requires Valid() && exists p :: InRange(g, p) && View().ppa[p] == FREE_PPA
      modifies this`lastSearched, this`selected, lastPage
      ensures HasRoom(g, old(View()))
      ensures newPpa == GetFree(g, old(View())).p && View() == GetFree(g, old(View())).t
      ensures old(View()).ppa[newPpa] == FREE_PPA
    {
      ghost var t := View();
      GetFreeFindsFree(g, t);
      ghost var goal := GetFree(g, t);
      ghost var calls := 0;
      ghost var turn := t;
      var ok := false;
      newPpa := Ppa(0, 0, 0, 0, 0);
      while !ok
        invariant View() == turn
        invariant if ok then newPpa == goal.p && turn == goal.t && calls == goal.calls else Searching(g, t, turn, calls)
        decreases !ok, if ok then 0 else RingDistance(g, PlaneOf(turn.last), OpenPlane(g, t.cursor))
      {
        ghost var before := turn;
        ok, newPpa := FindFreePage();
        calls := calls + 1;
        turn := View();
        if Core(g, before) { ScanIsTurn(g, before, ok, newPpa, turn); }
        SearchTurn(g, t, before, calls - 1, ok, newPpa, turn);
      }
      assert calls <= g.TotalPlanes();
    }

    method MakeNewMapping(lpn: nat) returns (newPpa: Ppa)
      requires Valid() && lpn < lpaTable.Length && HasRoom(g, View())
      modifies Repr()
      ensures Valid()
      ensures (View(), newPpa) == MakeMapping(g, old(View()), lpn)
      ensures old(Counted(g, View())) ==> Counted(g, View())
    {
      ghost var t := View();
      RoomIffFreePage(g, t);
      MakeMappingKeepsCore(g, t, lpn);
      if Counted(g, t) { MakeMappingKeepsCounts(g, t, lpn); }
      assert LpaAgrees(g, t.ppa, lpn, t.lpa[lpn]);
      newPpa := GetFreePpa();
      UpdateMapping(lpn, newPpa);
    }

    /** The table updates of make_new_mapping for an allocated page. */
    method UpdateMapping(lpn: nat, newPpa: Ppa)
      requires Shaped() && lpn < lpaTable.Length && InRange(g, newPpa)
      requires lpaTable[lpn].chn == UNMAPPED_CHN || InRange(g, lpaTable[lpn])
      modifies Repr()
      ensures BlockOf(newPpa) in old(BlkMap())
      ensures old(lpaTable[lpn]).chn == UNMAPPED_CHN || BlockOf(old(lpaTable[lpn])) in old(BlkMap())
      ensures View() == Remap(old(View()), lpn, newPpa)
    {
      hide IncValid, DecValid, IncInvalid, PpaMap, CursorMap;
      if lpaTable[lpn].chn == UNMAPPED_CHN {
        MapLpaAndPpa(lpn, newPpa);
        IncValidPages(newPpa);
        totals := totals.(valid := totals.valid + 1, free := totals.free - 1);
      } else {
        var current := lpaTable[lpn];
        MarkStale(current);
        MapLpaAndPpa(lpn, newPpa);
        IncValidPages(newPpa);
        totals := totals.(invalid := totals.invalid + 1, free := totals.free - 1);
      }
    }

    method MarkStale(p: Ppa)
      requires Shaped() && InRange(g, p)
      modifies ppaTable, blkTable
      ensures BlockOf(p) in old(BlkMap())
      ensures View() == old(View()).(ppa := old(View()).ppa[p := INVALID_PPA],
                                     blk := DecValid(IncInvalid(old(BlkMap()), BlockOf(p)), BlockOf(p)))
    {
      SetInvalidPpa(p);
      IncInvalidPages(p);
      DecValidPages(p);
    }

    method SetInvalidPpa(p: Ppa)
      requires Shaped() && InRange(g, p)
      modifies ppaTable
      ensures View() == old(View()).(ppa := old(View()).ppa[p := INVALID_PPA])
    {
      ppaTable[p.chn, p.die, p.plane, p.block, p.page] := INVALID_PPA;
      assert PpaMap() == old(PpaMap())[p := INVALID_PPA];
    }

    method MapLpaAndPpa(lpn: nat, p: Ppa)
      requires Shaped() && lpn < lpaTable.Length && InRange(g, p)
      modifies lpaTable, ppaTable
      ensures View() == old(View()).(lpa := old(View()).lpa[lpn := p], ppa := old(View()).ppa[p := lpn])
    {
      lpaTable[lpn] := p;
      ppaTable[p.chn, p.die, p.plane, p.block, p.page] := lpn;
      assert PpaMap() == old(PpaMap())[p := lpn];
    }

    method IncValidPages(p: Ppa)
      requires Shaped() && InRange(g, p)
      modifies blkTable
      ensures BlockOf(p) in old(BlkMap()) && View() == old(View()).(blk := IncValid(old(BlkMap()), BlockOf(p)))
    {
      var m := blkTable[p.chn, p.die, p.plane, p.block];
      blkTable[p.chn, p.die, p.plane, p.block] := m.(validPgs := Inc16(m.validPgs));
      assert BlkMap() == IncValid(old(BlkMap()), BlockOf(p));
    }

    method DecValidPages(p: Ppa)
      requires Shaped() && InRange(g, p)
      modifies blkTable
      ensures BlockOf(p) in old(BlkMap()) && View() == old(View()).(blk := DecValid(old(BlkMap()), BlockOf(p)))
    {
      var m := blkTable[p.chn, p.die, p.plane, p.block];
      blkTable[p.chn, p.die, p.plane, p.block] := m.(validPgs := Dec16(m.validPgs));
      assert BlkMap() == DecValid(old(BlkMap()), BlockOf(p));
    }

    method IncInvalidPages(p: Ppa)
      requires Shaped() && InRange(g, p)
      modifies blkTable
      ensures BlockOf(p) in old(BlkMap()) && View() == old(View()).(blk := IncInvalid(old(BlkMap()), BlockOf(p)))
    {
      var m := blkTable[p.chn, p.die, p.plane, p.block];
      blkTable[p.chn, p.die, p.plane, p.block] := m.(invalidPgs := Inc16(m.invalidPgs));
      assert BlkMap() == IncInvalid(old(BlkMap()), BlockOf(p));
    }
  }
}
