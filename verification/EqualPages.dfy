/** The translation layer when a NAND page holds one host page. */
module EqualPages {
  import opened Geometry
  import opened MappingTables
  import opened NandIo
  import opened FlashTranslation

  const WBC_PAGES: nat := 16

  /** Tables and flash together. */
  datatype Media<P> = Media(t: Tables, flash: map<Ppa, P>)

  ghost predicate Sound<P>(g: Geometry, m: Media<P>) { Core(g, m.t) && m.flash.Keys == AllPages(g) }

  ghost function FreePages(g: Geometry, t: Tables): nat { CountKind(t.ppa, AllPages(g), Free) }

  /** The content of a logical page: zeros until it is first programmed. */
  ghost function Content<P>(g: Geometry, m: Media<P>, zero: P, l: nat): P
    requires Sound(g, m) && l < |m.t.lpa|
  {
    assert LpaAgrees(g, m.t.ppa, l, m.t.lpa[l]);
    if Unmapped(m.t, l) then zero else m.flash[m.t.lpa[l]]
  }

  /** The flat disk that the medium stands for. */
  ghost function Flat<P>(g: Geometry, m: Media<P>, zero: P): (d: seq<P>)
    requires Sound(g, m)
    ensures |d| == |m.t.lpa|
  {
    seq(|m.t.lpa|, l requires 0 <= l < |m.t.lpa| => Content(g, m, zero, l))
  }

  // ---- One page ------------------------------------------------------------------------

  ghost function WriteOne<P>(g: Geometry, m: Media<P>, l: nat, data: P): Media<P>
    requires Sound(g, m) && HasRoom(g, m.t) && l < |m.t.lpa|
  {
    var (t', p) := MakeMapping(g, m.t, l);
    Media(t', m.flash[p := data])
  }

  lemma WriteOneSound<P>(g: Geometry, m: Media<P>, l: nat, data: P)
    requires Sound(g, m) && HasRoom(g, m.t) && l < |m.t.lpa|
    ensures Sound(g, WriteOne(g, m, l, data)) && |WriteOne(g, m, l, data).t.lpa| == |m.t.lpa|
    ensures FreePages(g, WriteOne(g, m, l, data).t) + 1 == FreePages(g, m.t)
  {
    MakeMappingKeepsCore(g, m.t, l);
    MakeMappingTakesOne(g, m.t, l);
  }

  lemma ContentAfterWrite<P>(g: Geometry, m: Media<P>, zero: P, l: nat, data: P, k: nat)
    requires Sound(g, m) && HasRoom(g, m.t) && l < |m.t.lpa| && k < |m.t.lpa|
    requires Sound(g, WriteOne(g, m, l, data)) && |WriteOne(g, m, l, data).t.lpa| == |m.t.lpa|
    ensures Content(g, WriteOne(g, m, l, data), zero, k) == if k == l then data else Content(g, m, zero, k)
  {
    MakeMappingKeepsCore(g, m.t, l);
    assert LpaAgrees(g, m.t.ppa, k, m.t.lpa[k]);
  }

  /** Writing one page out of place is one update of the flat disk. */
  lemma WriteOneRefines<P>(g: Geometry, m: Media<P>, zero: P, l: nat, data: P)
    requires Sound(g, m) && HasRoom(g, m.t) && l < |m.t.lpa|
    ensures Sound(g, WriteOne(g, m, l, data))
    ensures Flat(g, WriteOne(g, m, l, data), zero) == Flat(g, m, zero)[l := data]
  {
    WriteOneSound(g, m, l, data);
    forall k: nat | k < |m.t.lpa|
      ensures Flat(g, WriteOne(g, m, l, data), zero)[k] == Flat(g, m, zero)[l := data][k]
    {
      ContentAfterWrite(g, m, zero, l, data, k);
    }
  }

  // ---- Batches -------------------------------------------------------------------------

  datatype PageWrite<P> = PageWrite(lpn: nat, data: P)

  predicate LpnsIn<P>(batch: seq<PageWrite<P>>, n: nat) { forall i | 0 <= i < |batch| :: batch[i].lpn < n }

  ghost function WriteAll<P>(g: Geometry, m: Media<P>, batch: seq<PageWrite<P>>): (m': Media<P>)
    requires Sound(g, m) && LpnsIn(batch, |m.t.lpa|) && |batch| <= FreePages(g, m.t)
    ensures Sound(g, m') && |m'.t.lpa| == |m.t.lpa|
    ensures FreePages(g, m'.t) + |batch| == FreePages(g, m.t)
  {
    if batch == [] then m
    else
      var n := |batch| - 1;
      var before := WriteAll(g, m, batch[..n]);
      RoomIffFreePage(g, before.t);
      WriteOneSound(g, before, batch[n].lpn, batch[n].data);
      WriteOne(g, before, batch[n].lpn, batch[n].data)
  }

  function FlatWrite<P>(disk: seq<P>, batch: seq<PageWrite<P>>): (d: seq<P>)
    requires LpnsIn(batch, |disk|)
    ensures |d| == |disk|
  {
    if batch == [] then disk
    else
      var n := |batch| - 1;
      FlatWrite(disk, batch[..n])[batch[n].lpn := batch[n].data]
  }

  lemma WriteAllLast<P>(g: Geometry, m: Media<P>, batch: seq<PageWrite<P>>)
    requires Sound(g, m) && LpnsIn(batch, |m.t.lpa|) && |batch| <= FreePages(g, m.t) && batch != []
    ensures var n := |batch| - 1;
            var before := WriteAll(g, m, batch[..n]);
            && HasRoom(g, before.t)
            && WriteAll(g, m, batch) == WriteOne(g, before, batch[n].lpn, batch[n].data)
  {
    RoomIffFreePage(g, WriteAll(g, m, batch[..|batch| - 1]).t);
  }

  /** A batch written out of place is the same batch written in order to the flat disk. */
  lemma {:induction false} WriteAllRefines<P>(g: Geometry, m: Media<P>, zero: P, batch: seq<PageWrite<P>>)
    requires Sound(g, m) && LpnsIn(batch, |m.t.lpa|) && |batch| <= FreePages(g, m.t)
    ensures Flat(g, WriteAll(g, m, batch), zero) == FlatWrite(Flat(g, m, zero), batch)
  {
    hide MakeMapping, Core, FreePages;
    if batch != [] {
      var n := |batch| - 1;
      WriteAllRefines(g, m, zero, batch[..n]);
      WriteAllLast(g, m, batch);
      OneMoreRefines(g, WriteAll(g, m, batch[..n]), WriteAll(g, m, batch), zero,
        FlatWrite(Flat(g, m, zero), batch[..n]), batch[n]);
    }
  }

  lemma OneMoreRefines<P>(g: Geometry, m: Media<P>, m': Media<P>, zero: P, disk: seq<P>, w: PageWrite<P>)
    requires Sound(g, m) && HasRoom(g, m.t) && w.lpn < |m.t.lpa| && Flat(g, m, zero) == disk
    requires Sound(g, m') && m' == WriteOne(g, m, w.lpn, w.data)
    ensures Flat(g, m', zero) == disk[w.lpn := w.data]
  {
    WriteOneRefines(g, m, zero, w.lpn, w.data);
  }

  // ---- Mapping first, programming afterwards ----------------------------------------------

  predicate InTable(lpns: seq<nat>, n: nat) { forall i | 0 <= i < |lpns| :: lpns[i] < n }

  lemma MapOne(g: Geometry, t: Tables, l: nat)
    requires Core(g, t) && l < |t.lpa| && 1 <= FreePages(g, t)
    ensures HasRoom(g, t) && Core(g, MakeMapping(g, t, l).0)
    ensures MakeMapping(g, t, l).0.lpa == t.lpa[l := MakeMapping(g, t, l).1]
    ensures FreePages(g, MakeMapping(g, t, l).0) + 1 == FreePages(g, t)
  {
    RoomIffFreePage(g, t);
    MakeMappingKeepsCore(g, t, l);
    MakeMappingTakesOne(g, t, l);
  }

  lemma InTableSplit(lpns: seq<nat>, n: nat)
    requires InTable(lpns, n) && lpns != []
    ensures InTable(lpns[..|lpns| - 1], n) && lpns[|lpns| - 1] < n
  {
  }

  /** The mappings a request makes before anything is programmed, and the pages they took. */
  ghost function MapAll(g: Geometry, t: Tables, lpns: seq<nat>): (r: (Tables, seq<Ppa>))
    requires Core(g, t) && InTable(lpns, |t.lpa|) && |lpns| <= FreePages(g, t)
    ensures Core(g, r.0) && |r.0.lpa| == |t.lpa| && |r.1| == |lpns|
    ensures FreePages(g, r.0) + |lpns| == FreePages(g, t)
    ensures forall i | 0 <= i < |r.1| :: InRange(g, r.1[i])
  {
    hide *;
    if lpns == [] then (t, [])
    else
      var n := |lpns| - 1;
      InTableSplit(lpns, |t.lpa|);
      var (t1, ppas) := MapAll(g, t, lpns[..n]);
      MapOne(g, t1, lpns[n]);
      var (t2, p) := MakeMapping(g, t1, lpns[n]);
      OneMoreInRange(g, ppas, p);
      (t2, ppas + [p])
  }

  lemma OneMoreInRange(g: Geometry, ppas: seq<Ppa>, p: Ppa)
    requires (forall i | 0 <= i < |ppas| :: InRange(g, ppas[i])) && InRange(g, p)
    ensures |ppas + [p]| == |ppas| + 1 && forall i | 0 <= i < |ppas + [p]| :: InRange(g, (ppas + [p])[i])
  {
  }

  lemma MapAllLast(g: Geometry, t: Tables, lpns: seq<nat>, l: nat)
    requires Core(g, t) && InTable(lpns + [l], |t.lpa|) && |lpns| + 1 <= FreePages(g, t)
    ensures InTable(lpns, |t.lpa|)
    ensures var (t1, ppas) := MapAll(g, t, lpns);
            && HasRoom(g, t1)
            && MapAll(g, t, lpns + [l]) == (MakeMapping(g, t1, l).0, ppas + [MakeMapping(g, t1, l).1])
  {
    assert (lpns + [l])[..|lpns|] == lpns;
    assert forall i | 0 <= i < |lpns| :: lpns[i] == (lpns + [l])[i];
    RoomIffFreePage(g, MapAll(g, t, lpns).0);
  }

  /** The pages taken are distinct and were FREE; afterwards they are not, and no page became FREE. */
  ghost predicate TookFresh(g: Geometry, t: Tables, t': Tables, ppas: seq<Ppa>)
    requires Shape(g, t) && Shape(g, t')
  {
    && (forall i | 0 <= i < |ppas| :: InRange(g, ppas[i]) && t.ppa[ppas[i]] == FREE_PPA && t'.ppa[ppas[i]] != FREE_PPA)
    && (forall i, j | 0 <= i < j < |ppas| :: ppas[i] != ppas[j])
    && (forall p | InRange(g, p) && t'.ppa[p] == FREE_PPA :: t.ppa[p] == FREE_PPA)
  }

  lemma MappingTakesFresh(g: Geometry, t: Tables, l: nat)
    requires Core(g, t) && HasRoom(g, t) && l < |t.lpa|
    ensures Shape(g, MakeMapping(g, t, l).0)
    ensures TookFresh(g, t, MakeMapping(g, t, l).0, [MakeMapping(g, t, l).1])
  {
    MakeMappingKeepsCore(g, t, l);
  }

  lemma TookFreshCompose(g: Geometry, t: Tables, t1: Tables, t2: Tables, ppas: seq<Ppa>, p: Ppa)
    requires Shape(g, t) && Shape(g, t1) && Shape(g, t2)
    requires TookFresh(g, t, t1, ppas) && TookFresh(g, t1, t2, [p])
    ensures TookFresh(g, t, t2, ppas + [p])
  {
    assert [p][0] == p;
    forall i | 0 <= i < |ppas| ensures ppas[i] != p && t2.ppa[ppas[i]] != FREE_PPA {
      assert InRange(g, ppas[i]) && t1.ppa[ppas[i]] != FREE_PPA;
    }
  }

  lemma {:induction false} MapAllTakesFreshPages(g: Geometry, t: Tables, lpns: seq<nat>)
    requires Core(g, t) && InTable(lpns, |t.lpa|) && |lpns| <= FreePages(g, t)
    ensures TookFresh(g, t, MapAll(g, t, lpns).0, MapAll(g, t, lpns).1)
  {
    if lpns != [] {
      var n := |lpns| - 1;
      assert lpns == lpns[..n] + [lpns[n]];
      MapAllTakesFreshPages(g, t, lpns[..n]);
      MapAllLast(g, t, lpns[..n], lpns[n]);
      var (t1, ppas) := MapAll(g, t, lpns[..n]);
      MappingTakesFresh(g, t1, lpns[n]);
      TookFreshCompose(g, t, t1, MakeMapping(g, t1, lpns[n]).0, ppas, MakeMapping(g, t1, lpns[n]).1);
    }
  }

  // ---- Striping -------------------------------------------------------------------------

  ghost predicate AllOpen(g: Geometry, t: Tables)
    requires Shape(g, t)
  {
    forall q | PlaneInRange(g, q) :: !Full(g, t.cursor[q])
  }

  ghost predicate OpenThroughout(g: Geometry, t: Tables, lpns: seq<nat>)
    requires Core(g, t) && InTable(lpns, |t.lpa|) && |lpns| <= FreePages(g, t)
  {
    forall j | 0 <= j < |lpns| :: AllOpen(g, MapAll(g, t, lpns[..j]).0)
  }

  lemma PlaceInRing(g: Geometry, t: Tables)
    requires Core(g, t)
    ensures PlaneInRange(g, PlaneOf(t.last)) && PlaneInRange(g, NextPlane(g, PlaneOf(t.last)))
    ensures NextPlane(g, PlaneOf(t.last)) in t.cursor
  {
    NextPlaneIsSuccessor(g, PlaneOf(t.last));
  }

  /** While every plane has room, consecutive mappings go round the planes in odometer order. */
  lemma {:induction false} MapAllStripes(g: Geometry, t: Tables, lpns: seq<nat>)
    requires Core(g, t) && InTable(lpns, |t.lpa|) && |lpns| <= FreePages(g, t) && OpenThroughout(g, t, lpns)
    ensures var (t', ppas) := MapAll(g, t, lpns);
            && (forall k | 0 <= k < |ppas| :: OnTurn(g, t, ppas, k))
            && PlaneOf(t'.last) == Advance(g, PlaneOf(t.last), |lpns|)
  {
    hide Core, FreePages, MakeMapping, AllOpen, Advance;
    if lpns == [] {
      AdvanceNone(g, PlaneOf(t.last));
    } else {
      var n := |lpns| - 1;
      assert lpns == lpns[..n] + [lpns[n]];
      assert forall j | 0 <= j < n :: lpns[..n][..j] == lpns[..j];
      MapAllStripes(g, t, lpns[..n]);
      MapAllLast(g, t, lpns[..n], lpns[n]);
      var (t1, ppas) := MapAll(g, t, lpns[..n]);
      MapsToNext(g, t1, lpns[n]);
      AdvanceNext(g, PlaneOf(t.last), n);
      var all := MapAll(g, t, lpns).1;
      forall k | 0 <= k < |all| ensures OnTurn(g, t, all, k) {
        if k < n { assert OnTurn(g, t, ppas, k); }
      }
    }
  }

  // Page k of the list is on the plane that the odometer reaches in k + 1 steps.
  ghost predicate OnTurn(g: Geometry, t: Tables, ppas: seq<Ppa>, k: nat)
    requires k < |ppas|
  {
    PlaneOf(ppas[k]) == Advance(g, PlaneOf(t.last), k + 1)
  }

  lemma AdvanceNone(g: Geometry, q: PlaneId)
    ensures Advance(g, q, 0) == q
  {
  }

  lemma AdvanceNext(g: Geometry, q: PlaneId, n: nat)
    ensures Advance(g, q, n + 1) == NextPlane(g, Advance(g, q, n))
  {
    AdvanceSum(g, q, n, 1);
    assert Advance(g, Advance(g, q, n), 1) == Advance(g, NextPlane(g, Advance(g, q, n)), 0);
  }

  lemma MapsToNext(g: Geometry, t: Tables, l: nat)
    requires Core(g, t) && AllOpen(g, t) && HasRoom(g, t) && l < |t.lpa|
    ensures PlaneOf(MakeMapping(g, t, l).1) == NextPlane(g, PlaneOf(t.last)) == PlaneOf(MakeMapping(g, t, l).0.last)
  {
    hide Logged, Inverse;
    PlaceInRing(g, t);
    NextPlaneIsTaken(g, t);
    MappingMovesOdometer(g, t, l);
  }

  /** Any TotalPlanes consecutive ones of them use every plane exactly once. */
  lemma EveryPlaneOnce(g: Geometry, t: Tables, lpns: seq<nat>, i: nat, r: PlaneId, k: nat)
    requires Core(g, t) && InTable(lpns, |t.lpa|) && |lpns| <= FreePages(g, t) && OpenThroughout(g, t, lpns)
    requires i <= k < i + g.TotalPlanes() <= |lpns| && PlaneInRange(g, r)
    ensures PlaneOf(MapAll(g, t, lpns).1[k]) == r <==> k == i + RingDistance(g, Advance(g, PlaneOf(t.last), i), r)
    ensures 0 <= RingDistance(g, Advance(g, PlaneOf(t.last), i), r) < g.TotalPlanes()
  {
    hide *;
    MapAllStripes(g, t, lpns);
    PlaceInRing(g, t);
    TurnOf(g, t, MapAll(g, t, lpns).1, k);
    WhenReached(g, PlaneOf(t.last), i, r, k);
  }

  lemma TurnOf(g: Geometry, t: Tables, ppas: seq<Ppa>, k: nat)
    requires Core(g, t) && k < |ppas| && OnTurn(g, t, ppas, k)
    ensures g.Valid() && PlaneOf(ppas[k]) == Advance(g, PlaneOf(t.last), k + 1)
  {
  }

  lemma WhenReached(g: Geometry, q: PlaneId, i: nat, r: PlaneId, k: nat)
    requires g.Valid() && PlaneInRange(g, q) && PlaneInRange(g, r) && i <= k < i + g.TotalPlanes()
    ensures Advance(g, q, k + 1) == r <==> k == i + RingDistance(g, Advance(g, q, i), r)
    ensures 0 <= RingDistance(g, Advance(g, q, i), r) < g.TotalPlanes()
  {
    hide Advance, RingDistance;
    AdvanceInRange(g, q, i);
    AdvanceSum(g, q, i, k + 1 - i);
    OdometerIsOneCycle(g, Advance(g, q, i), r, k + 1 - i);
    DistanceStep(g, Advance(g, q, i), r);
  }

  function Lpns<P>(batch: seq<PageWrite<P>>): seq<nat> { seq(|batch|, i requires 0 <= i < |batch| => batch[i].lpn) }

  lemma LpnsLast<P>(batch: seq<PageWrite<P>>)
    requires batch != []
    ensures Lpns(batch) == Lpns(batch[..|batch| - 1]) + [batch[|batch| - 1].lpn]
  {
  }

  lemma OpsLast(ppas: seq<Ppa>, slots: seq<nat>, p: Ppa, slot: nat)
    requires |ppas| == |slots|
    ensures Ops(ppas + [p], slots + [slot]) == Ops(ppas, slots) + [PageOp(p, slot)]
    ensures Ops(ppas + [p], slots + [slot])[..|ppas|] == Ops(ppas, slots)
  {
  }

  lemma LastSlot(slots: seq<nat>)
    requires slots != []
    ensures slots == slots[..|slots| - 1] + [slots[|slots| - 1]]
  {
  }

  function Ops(ppas: seq<Ppa>, slots: seq<nat>): seq<PageOp>
    requires |ppas| == |slots|
  {
    seq(|ppas|, i requires 0 <= i < |ppas| => PageOp(ppas[i], slots[i]))
  }

  /** Mapping a whole batch and programming it afterwards is the same as writing its pages one by one. */
  lemma {:induction false} MapThenProgram<P>(g: Geometry, m: Media<P>, batch: seq<PageWrite<P>>, slots: seq<nat>,
          ram: seq<P>)
    requires Sound(g, m) && LpnsIn(batch, |m.t.lpa|) && |batch| <= FreePages(g, m.t)
    requires SlotsHold(batch, slots, ram)
    ensures WriteAll(g, m, batch).t == MapAll(g, m.t, Lpns(batch)).0
    ensures WriteAll(g, m, batch).flash == Program(m.flash, Ops(MapAll(g, m.t, Lpns(batch)).1, slots), ram)
  {
    hide MakeMapping, Core, FreePages;
    if batch != [] {
      var n := |batch| - 1;
      var lpns, last := Lpns(batch[..n]), batch[n].lpn;
      MapThenProgram(g, m, batch[..n], slots[..n], ram);
      LpnsLast(batch);
      MapAllLast(g, m.t, lpns, last);
      LastSlot(slots);
      ProgramLast(m.flash, MapAll(g, m.t, lpns).1, slots[..n], MakeMapping(g, MapAll(g, m.t, lpns).0, last).1, slots[n],
        ram);
      WriteAllLastIs(g, m, batch, MapAll(g, m.t, lpns).0,
        Program(m.flash, Ops(MapAll(g, m.t, lpns).1, slots[..n]), ram));
    }
  }

  ghost predicate SlotsHold<P>(batch: seq<PageWrite<P>>, slots: seq<nat>, ram: seq<P>) {
    |slots| == |batch| && forall i | 0 <= i < |batch| :: slots[i] < |ram| && ram[slots[i]] == batch[i].data
  }

  lemma WriteAllLastIs<P>(g: Geometry, m: Media<P>, batch: seq<PageWrite<P>>, t1: Tables, flash: map<Ppa, P>)
    requires Sound(g, m) && LpnsIn(batch, |m.t.lpa|) && |batch| <= FreePages(g, m.t) && batch != []
    requires WriteAll(g, m, batch[..|batch| - 1]) == Media(t1, flash)
    ensures var w := batch[|batch| - 1];
            && Core(g, t1) && HasRoom(g, t1) && w.lpn < |t1.lpa|
            && WriteAll(g, m, batch).t == MakeMapping(g, t1, w.lpn).0
            && WriteAll(g, m, batch).flash == flash[MakeMapping(g, t1, w.lpn).1 := w.data]
  {
    WriteAllLast(g, m, batch);
  }

  lemma ProgramLast<P>(flash: map<Ppa, P>, ppas: seq<Ppa>, slots: seq<nat>, p: Ppa, slot: nat, ram: seq<P>)
    requires |ppas| == |slots| && slot < |ram| && forall i | 0 <= i < |slots| :: slots[i] < |ram|
    ensures Program(flash, Ops(ppas + [p], slots + [slot]), ram) ==
      Program(flash, Ops(ppas, slots), ram)[p := ram[slot]]
  {
    OpsLast(ppas, slots, p, slot);
  }

  // Programming buffer i to page ppas[i] for every i.
  lemma ProgramBuffers<Q>(flash: map<Ppa, Q>, ppas: seq<Ppa>, bufs: seq<Q>)
    requires |ppas| <= |bufs| && (forall i | 0 <= i < |ppas| :: ppas[i] in flash)
    requires forall i, j | 0 <= i < j < |ppas| :: ppas[i] != ppas[j]
    ensures var f := Program(flash, Ops(ppas, Range(0, |ppas|)), bufs);
            && f.Keys == flash.Keys
            && (forall i | 0 <= i < |ppas| :: f[ppas[i]] == bufs[i])
            && (forall p | p in flash && p !in ppas :: f[p] == flash[p])
  {
    var op := Ops(ppas, Range(0, |ppas|));
    ProgramAt(flash, op, bufs);
    ProgramKeys(flash, op, bufs);
    forall i | 0 <= i < |ppas| ensures Program(flash, op, bufs)[ppas[i]] == bufs[i] {
      assert op[i] == PageOp(ppas[i], i);
    }
  }

  // ---- The requests ------------------------------------------------------------------------

  datatype WbcPage = WbcPage(lpn: nat, slot: nat, valid: bool)

  /** The entries a flush programs: the valid ones in order (none when the request says there are none). */
  function ToProgram(wbc: seq<WbcPage>, num: nat): seq<WbcPage> {
    if wbc == [] || num == 0 then []
    else
      var n := |wbc| - 1;
      ToProgram(wbc[..n], num) + if wbc[n].valid then [wbc[n]] else []
  }

  predicate EntriesIn(wbc: seq<WbcPage>, lpns: nat, slots: nat) {
    forall i | 0 <= i < |wbc| && wbc[i].valid :: wbc[i].lpn < lpns && wbc[i].slot < slots
  }

  lemma {:induction false} ToProgramIn(wbc: seq<WbcPage>, num: nat, lpns: nat, slots: nat)
    requires EntriesIn(wbc, lpns, slots)
    ensures forall i | 0 <= i < |ToProgram(wbc, num)| ::
              ToProgram(wbc, num)[i].lpn < lpns && ToProgram(wbc, num)[i].slot < slots
    ensures |ToProgram(wbc, num)| <= |wbc|
  {
    if wbc != [] && num != 0 {
      ToProgramIn(wbc[..|wbc| - 1], num, lpns, slots);
    }
  }

  // One step of the scan over the cache entries.
  lemma {:induction false} ToProgramPrefix(wbc: seq<WbcPage>, num: nat, k: nat)
    requires k < |wbc| && 0 < num
    ensures ToProgram(wbc[..k + 1], num) ==
              if wbc[k].valid then ToProgram(wbc[..k], num) + [wbc[k]] else ToProgram(wbc[..k], num)
    ensures ToProgram(wbc[..k + 1], num) <= ToProgram(wbc, num)
    decreases |wbc| - k
  {
    hide *;
    ToProgramStep(wbc, num, k);
    if k + 1 < |wbc| {
      ToProgramPrefix(wbc, num, k + 1);
    } else {
      assert wbc[..k + 1] == wbc;
    }
  }

  lemma ToProgramStep(wbc: seq<WbcPage>, num: nat, k: nat)
    requires k < |wbc| && 0 < num
    ensures ToProgram(wbc[..k + 1], num) ==
              if wbc[k].valid then ToProgram(wbc[..k], num) + [wbc[k]] else ToProgram(wbc[..k], num)
  {
    var first := wbc[..k + 1];
    assert first[..k] == wbc[..k] && first[k] == wbc[k];
  }

  function EntryLpns(entries: seq<WbcPage>): seq<nat> {
    seq(|entries|, i requires 0 <= i < |entries| => entries[i].lpn)
  }

  function EntrySlots(entries: seq<WbcPage>): seq<nat> {
    seq(|entries|, i requires 0 <= i < |entries| => entries[i].slot)
  }

  lemma EntriesLast(entries: seq<WbcPage>, e: WbcPage)
    ensures EntryLpns(entries + [e]) == EntryLpns(entries) + [e.lpn]
    ensures EntrySlots(entries + [e]) == EntrySlots(entries) + [e.slot]
  {
  }

  lemma BatchOfEntries<P>(entries: seq<WbcPage>, ram: seq<P>)
    requires forall i | 0 <= i < |entries| :: entries[i].slot < |ram|
    ensures Lpns(BatchOf(entries, ram)) == EntryLpns(entries)
    ensures SlotsHold(BatchOf(entries, ram), EntrySlots(entries), ram)
  {
  }

  function BatchOf<P>(entries: seq<WbcPage>, ram: seq<P>): seq<PageWrite<P>>
    requires forall i | 0 <= i < |entries| :: entries[i].slot < |ram|
  {
    seq(|entries|, i requires 0 <= i < |entries| => PageWrite(entries[i].lpn, ram[entries[i].slot]))
  }

  // How many of the n logical pages from start are mapped.
  function MappedCount(t: Tables, start: nat, n: nat): (r: nat)
    requires start + n <= |t.lpa|
    ensures r <= n
  {
    if n == 0 then 0 else MappedCount(t, start, n - 1) + if Unmapped(t, start + n - 1) then 0 else 1
  }

  function Range(start: nat, n: nat): seq<nat> { seq(n, i requires 0 <= i => start + i) }

  class EqualFtl<P(0)> {
    const ftl: Ftl
    const nand: Nand<P>
    const zero: P

    constructor (ftl: Ftl, nand: Nand<P>, zero: P)
      ensures this.ftl == ftl && this.nand == nand && this.zero == zero
    {
      this.ftl, this.nand, this.zero := ftl, nand, zero;
    }

    ghost function State(): Media<P>
      requires ftl.Shaped()
      reads ftl.Repr(), nand
    {
      Media(ftl.View(), nand.flash)
    }

    ghost predicate Valid()
      reads ftl.Repr(), nand
    {
      ftl.Shaped() && Sound(ftl.g, State())
    }

    /** Flushing the write-back cache: every valid entry, in order. */
    method ProcessWbc(wbc: seq<WbcPage>, num: nat, ram: array<P>)
      requires Valid() && |wbc| == WBC_PAGES && EntriesIn(wbc, ftl.lpaTable.Length, ram.Length)
      requires |ToProgram(wbc, num)| <= FreePages(ftl.g, ftl.View())
      modifies ftl.Repr(), nand
      ensures Valid()
      ensures forall i | 0 <= i < |ToProgram(wbc, num)| :: ToProgram(wbc, num)[i].slot < ram.Length
      ensures LpnsIn(BatchOf(ToProgram(wbc, num), ram[..]), |old(State()).t.lpa|)
      ensures State() == WriteAll(ftl.g, old(State()), BatchOf(ToProgram(wbc, num), ram[..]))
    {
      hide MakeMapping, MapAll, WriteAll, Core, FreePages, Mapped, ToProgram, Program;
      ghost var m, entries := State(), ToProgram(wbc, num);
      ToProgramIn(wbc, num, ftl.lpaTable.Length, ram.Length);
      NothingVisited(ftl.g, ftl.View(), wbc, num);
      var op := MapEntries(wbc, num);
      FlushResult(ftl.g, m, entries, ftl.View(), op, ram[..]);
      nand.SyncProgram(op, ram);
    }

    // The loop over the cache entries. The source's own page counter stays 0, so every entry is visited.
    method MapEntries(wbc: seq<WbcPage>, num: nat) returns (op: seq<PageOp>)
      requires ftl.Shaped() && Visited(ftl.g, ftl.View(), wbc, num, 0, ftl.View(), [])
      modifies ftl.Repr()
      ensures ftl.Shaped() && Mapped(ftl.g, old(ftl.View()), ToProgram(wbc, num), ftl.View(), op)
    {
      hide *;
      ghost var t := ftl.View();
      op := [];
      var icache := 0;
      while icache < WBC_PAGES && 0 < num
        invariant 0 <= icache <= WBC_PAGES && (num == 0 ==> icache == 0)
        invariant ftl.Shaped() && Visited(ftl.g, t, wbc, num, icache, ftl.View(), op)
      {
        op := VisitEntry(wbc, num, icache, t, op);
        icache := icache + 1;
      }
      AllVisited(ftl.g, t, wbc, num, icache, ftl.View(), op);
    }

    method VisitEntry(wbc: seq<WbcPage>, num: nat, icache: nat, ghost t: Tables, op: seq<PageOp>)
      returns (op': seq<PageOp>)
      requires ftl.Shaped() && icache < WBC_PAGES && 0 < num && Visited(ftl.g, t, wbc, num, icache, ftl.View(), op)
      modifies ftl.Repr()
      ensures Visited(ftl.g, t, wbc, num, icache + 1, ftl.View(), op')
    {
      hide MakeMapping, MapAll, Core, FreePages, Mapped, ToProgram;
      ToProgramPrefix(wbc, num, icache);
      ghost var taken := ToProgram(wbc[..icache], num);
      op' := op;
      if wbc[icache].valid {
        assert ToProgram(wbc, num)[|taken|] == wbc[icache];
        op' := MapEntry(wbc[icache], t, taken, op);
      }
    }

    // One iteration: a new mapping and one more page in the operation.
    method MapEntry(e: WbcPage, ghost t: Tables, ghost taken: seq<WbcPage>, op: seq<PageOp>) returns (op': seq<PageOp>)
      requires ftl.Shaped() && Mapped(ftl.g, t, taken, ftl.View(), op)
      requires e.lpn < |t.lpa| && |taken| + 1 <= FreePages(ftl.g, t) && |op| < MAX_OP_PAGES
      modifies ftl.Repr()
      ensures Mapped(ftl.g, t, taken + [e], ftl.View(), op') && |op'| == |op| + 1
    {
      hide *;
      MapsEntry(ftl.g, t, taken, e, ftl.View(), op);
      ReadyToMap(ftl);
      var newPpa := ftl.MakeNewMapping(e.lpn);
      StillShaped(ftl);
      op' := AddOpPage(op, newPpa, e.slot);
    }

    /** Reading n logical pages from start: ftl_process_read_io and __sync_read_pages. An operation holds 128
        pages, so mapped pages after the 128th are not read. */
    method ReadPages(start: nat, n: nat, ram: array<P>)
      requires Valid() && start + n <= ftl.lpaTable.Length && n <= ram.Length && ram !in ftl.Repr()
      modifies ram
      ensures Valid() && State() == old(State())
      ensures forall i | 0 <= i < n ::
                ram[i] == if Unmapped(ftl.View(), start + i) || MappedCount(ftl.View(), start, i) < MAX_OP_PAGES
                          then Content(ftl.g, State(), zero, start + i) else old(ram[i])
      ensures forall i | n <= i < ram.Length :: ram[i] == old(ram[i])
    {
      ghost var m, ram0 := State(), ram[..];
      var op: seq<PageOp> := [];
      hide *;
      ReadNothing(ftl.g, m, zero, start, n, ram0);
      var lpnIndex, lpn := 0, start;
      while lpnIndex < n
        invariant 0 <= lpnIndex <= n && lpn == start + lpnIndex
        invariant Reading(ftl.g, m, zero, start, n, lpnIndex, ram0, ram[..], op)
      {
        ReadOneMore(ftl.g, m, zero, start, n, lpnIndex, ram0, ram[..], op);
        if ftl.lpaTable[lpn].chn == UNMAPPED_CHN {
          ram[lpnIndex] := zero;
        } else {
          op := AddOpPage(op, ftl.lpaTable[lpn], lpnIndex);
        }
        lpnIndex := lpnIndex + 1;
        lpn := lpn + 1;
      }
      ReadDone(ftl.g, m, zero, start, n, ram0, ram[..], op);
      nand.SyncRead(op, ram);
    }

    /** __sync_program_pages: n consecutive logical pages from a buffer. Every page is mapped, but only the
        first 128 fit in the operation and are programmed. */
    method SyncProgramPages(start: nat, n: nat, ram: array<P>)
      requires Valid() && start + n <= ftl.lpaTable.Length && n <= ram.Length
      requires n <= FreePages(ftl.g, ftl.View())
      modifies ftl.Repr(), nand
      ensures ftl.Shaped() && InTable(Range(start, n), |old(State()).t.lpa|)
      ensures ftl.View() == MapAll(ftl.g, old(ftl.View()), Range(start, n)).0
      ensures SlotsIn(Capped(MapAll(ftl.g, old(ftl.View()), Range(start, n)).1), ram.Length)
      ensures nand.flash == Program(old(nand.flash), Capped(MapAll(ftl.g, old(ftl.View()), Range(start, n)).1), ram[..])
    {
      ghost var t := ftl.View();
      var op: seq<PageOp> := [];
      MappedNoRange(ftl.g, t, start, n);
      assert nand !in ftl.Repr();
      hide *;
      var lpnIndex, lpn := 0, start;
      while lpnIndex < n
        invariant 0 <= lpnIndex <= n && lpn == start + lpnIndex
        invariant nand.flash == old(nand.flash)
        invariant ftl.Shaped() && MappedRange(ftl.g, t, start, n, lpnIndex, ftl.View(), op)
      {
        op := MapPage(start, n, lpnIndex, t, op);
        lpnIndex := lpnIndex + 1;
        lpn := lpn + 1;
      }
      RangeMapped(ftl.g, t, start, n, ftl.View(), op, ram.Length);
      nand.SyncProgram(op, ram);
    }

    method MapPage(start: nat, n: nat, k: nat, ghost t: Tables, op: seq<PageOp>) returns (op': seq<PageOp>)
      requires ftl.Shaped() && k < n && MappedRange(ftl.g, t, start, n, k, ftl.View(), op)
      modifies ftl.Repr()
      ensures MappedRange(ftl.g, t, start, n, k + 1, ftl.View(), op')
    {
      hide *;
      MapsNext(ftl.g, t, start, n, k, ftl.View(), op);
      ReadyToMap(ftl);
      var newPpa := ftl.MakeNewMapping(start + k);
      StillShaped(ftl);
      op' := AddOpPage(op, newPpa, k);
    }
  }

  lemma ReadyToMap(ftl: Ftl)
    requires ftl.Shaped() && Core(ftl.g, ftl.View())
    ensures ftl.Valid() && ftl.lpaTable.Length == |ftl.View().lpa|
  {
  }

  lemma StillShaped(ftl: Ftl)
    requires ftl.Valid()
    ensures ftl.Shaped()
  {
  }

  // One more page or entry of the batch is mapped.
  lemma MapsNext(g: Geometry, t: Tables, start: nat, n: nat, k: nat, now: Tables, op: seq<PageOp>)
    requires k < n && MappedRange(g, t, start, n, k, now, op)
    ensures Core(g, now) && HasRoom(g, now) && start + k < |now.lpa|
    ensures var (now', p) := MakeMapping(g, now, start + k);
            MappedRange(g, t, start, n, k + 1, now', AddOpPage(op, p, k))
  {
    hide MakeMapping, MapAll, Core, FreePages;
    RangeLast(start, k);
    MapAllLast(g, t, Range(start, k), start + k);
    MapOne(g, now, start + k);
    CappedLast(MapAll(g, t, Range(start, k)).1, MakeMapping(g, now, start + k).1);
  }

  lemma MapsEntry(g: Geometry, t: Tables, taken: seq<WbcPage>, e: WbcPage, now: Tables, op: seq<PageOp>)
    requires Mapped(g, t, taken, now, op) && e.lpn < |t.lpa| && |taken| + 1 <= FreePages(g, t)
    requires |op| < MAX_OP_PAGES
    ensures Core(g, now) && HasRoom(g, now) && e.lpn < |now.lpa|
    ensures var (now', p) := MakeMapping(g, now, e.lpn);
            Mapped(g, t, taken + [e], now', AddOpPage(op, p, e.slot)) && |AddOpPage(op, p, e.slot)| == |op| + 1
  {
    hide MakeMapping, Core, MapAll, FreePages;
    EntriesLast(taken, e);
    assert InTable(EntryLpns(taken) + [e.lpn], |t.lpa|);
    MapAllLast(g, t, EntryLpns(taken), e.lpn);
    MapOne(g, now, e.lpn);
    OpsLast(MapAll(g, t, EntryLpns(taken)).1, EntrySlots(taken), MakeMapping(g, now, e.lpn).1, e.slot);
  }

  // ---- Programming consecutive pages -------------------------------------------------------

  lemma RangeLast(start: nat, k: nat)
    ensures Range(start, k + 1) == Range(start, k) + [start + k]
  {
  }

  lemma RangeInTable(start: nat, k: nat, n: nat)
    requires start + k <= n
    ensures InTable(Range(start, k), n) && |Range(start, k)| == k
  {
  }

  // The pages an operation holds when one page after another is offered to it, slot by slot.
  function Capped(ppas: seq<Ppa>): (op: seq<PageOp>)
    ensures |op| == (if |ppas| < MAX_OP_PAGES then |ppas| else MAX_OP_PAGES)
    ensures forall i | 0 <= i < |op| :: op[i] == PageOp(ppas[i], i)
  {
    seq(if |ppas| < MAX_OP_PAGES then |ppas| else MAX_OP_PAGES, i requires 0 <= i < |ppas| => PageOp(ppas[i], i))
  }

  lemma CappedLast(ppas: seq<Ppa>, p: Ppa)
    ensures Capped(ppas + [p]) == AddOpPage(Capped(ppas), p, |ppas|)
  {
  }

  // The state of the mapping loop after k of the n pages.
  ghost predicate MappedRange(g: Geometry, t: Tables, start: nat, n: nat, k: nat, now: Tables, op: seq<PageOp>) {
    && Core(g, t) && k <= n && start + n <= |t.lpa| && n <= FreePages(g, t)
    && now == MapAll(g, t, Range(start, k)).0
    && op == Capped(MapAll(g, t, Range(start, k)).1)
  }

  lemma MappedNoRange(g: Geometry, t: Tables, start: nat, n: nat)
    requires Core(g, t) && start + n <= |t.lpa| && n <= FreePages(g, t)
    ensures MappedRange(g, t, start, n, 0, t, [])
  {
    assert Range(start, 0) == [];
  }

  lemma RangeMapped(g: Geometry, t: Tables, start: nat, n: nat, now: Tables, op: seq<PageOp>, slots: nat)
    requires MappedRange(g, t, start, n, n, now, op) && n <= slots
    ensures Core(g, t) && InTable(Range(start, n), |t.lpa|) && n <= FreePages(g, t)
    ensures now == MapAll(g, t, Range(start, n)).0 && op == Capped(MapAll(g, t, Range(start, n)).1)
    ensures SlotsIn(op, slots)
  {
    hide MakeMapping, MapAll, Core, FreePages;
  }

  // Logical pages start .. start + |ppas| sit on the pages ppas, all others where they were.
  ghost predicate MovedTo(before: seq<Ppa>, after: seq<Ppa>, start: nat, ppas: seq<Ppa>) {
    && |after| == |before|
    && forall l | 0 <= l < |before| :: after[l] == if start <= l < start + |ppas| then ppas[l - start] else before[l]
  }

  lemma MovedToOneMore(before: seq<Ppa>, after: seq<Ppa>, start: nat, ppas: seq<Ppa>, p: Ppa)
    requires MovedTo(before, after, start, ppas) && start + |ppas| < |before|
    ensures MovedTo(before, after[start + |ppas| := p], start, ppas + [p])
  {
  }

  lemma MapNoRange(g: Geometry, t: Tables, start: nat)
    requires Core(g, t)
    ensures MapAll(g, t, Range(start, 0)) == (t, [])
    ensures MovedTo(t.lpa, t.lpa, start, [])
  {
    assert Range(start, 0) == [];
  }

  lemma {:induction false} MapRangeMoves(g: Geometry, t: Tables, start: nat, n: nat)
    requires Core(g, t) && start + n <= |t.lpa| && n <= FreePages(g, t)
    ensures InTable(Range(start, n), |t.lpa|)
    ensures MovedTo(t.lpa, MapAll(g, t, Range(start, n)).0.lpa, start, MapAll(g, t, Range(start, n)).1)
  {
    hide *;
    RangeInTable(start, n, |t.lpa|);
    if n == 0 {
      MapNoRange(g, t, start);
    } else {
      MapRangeMoves(g, t, start, n - 1);
      RangeInTable(start, n - 1, |t.lpa|);
      RangeLast(start, n - 1);
      MapAllLast(g, t, Range(start, n - 1), start + n - 1);
      var (t1, ppas) := MapAll(g, t, Range(start, n - 1));
      MapOne(g, t1, start + n - 1);
      MovedToOneMore(t.lpa, t1.lpa, start, ppas, MakeMapping(g, t1, start + n - 1).1);
    }
  }

  /** What every logical page reads as after __sync_program_pages: the first 128 pages of the request have their
      new content, a page beyond them has whatever its freshly mapped flash page held, all others are unchanged. */
  lemma SyncProgramContent<P>(g: Geometry, m: Media<P>, zero: P, start: nat, n: nat, ram: seq<P>, l: nat)
    requires Sound(g, m) && start + n <= |m.t.lpa| && n <= |ram| && n <= FreePages(g, m.t) && l < |m.t.lpa|
    ensures var (t', ppas) := MapAll(g, m.t, Range(start, n));
            var m' := Media(t', Program(m.flash, Capped(ppas), ram));
            && Sound(g, m')
            && Content(g, m', zero, l) ==
               if !(start <= l < start + n) then Content(g, m, zero, l)
               else if l - start < MAX_OP_PAGES then ram[l - start]
               else m.flash[ppas[l - start]]
  {
    hide MakeMapping, MapAll, FreePages, Core;
    var (t', ppas) := MapAll(g, m.t, Range(start, n));
    MapAllTakesFreshPages(g, m.t, Range(start, n));
    MapRangeMoves(g, m.t, start, n);
    ProgramKeys(m.flash, Capped(ppas), ram);
    CappedContent(g, m, t', zero, start, ppas, ram, l);
  }

  // What each page of the flash holds after a capped operation on distinct pages.
  lemma CappedAt<P>(flash: map<Ppa, P>, ppas: seq<Ppa>, ram: seq<P>)
    requires |ppas| <= |ram| && (forall i | 0 <= i < |ppas| :: ppas[i] in flash)
    requires forall i, j | 0 <= i < j < |ppas| :: ppas[i] != ppas[j]
    ensures Program(flash, Capped(ppas), ram).Keys == flash.Keys
    ensures forall i | 0 <= i < |ppas| ::
              Program(flash, Capped(ppas), ram)[ppas[i]] == if i < MAX_OP_PAGES then ram[i] else flash[ppas[i]]
    ensures forall p | p in flash && p !in ppas :: Program(flash, Capped(ppas), ram)[p] == flash[p]
  {
    ProgramAt(flash, Capped(ppas), ram);
    ProgramKeys(flash, Capped(ppas), ram);
    forall i | 0 <= i < |ppas|
      ensures Program(flash, Capped(ppas), ram)[ppas[i]] == if i < MAX_OP_PAGES then ram[i] else flash[ppas[i]]
    {
      if i < MAX_OP_PAGES { assert Capped(ppas)[i].ppa == ppas[i]; }
    }
  }

  lemma CappedContent<P>(g: Geometry, m: Media<P>, t': Tables, zero: P, start: nat, ppas: seq<Ppa>, ram: seq<P>, l: nat)
    requires Sound(g, m) && start + |ppas| <= |m.t.lpa| && |ppas| <= |ram| && l < |m.t.lpa|
    requires Sound(g, Media(t', Program(m.flash, Capped(ppas), ram)))
    requires TookFresh(g, m.t, t', ppas) && MovedTo(m.t.lpa, t'.lpa, start, ppas)
    ensures Content(g, Media(t', Program(m.flash, Capped(ppas), ram)), zero, l) ==
            if !(start <= l < start + |ppas|) then Content(g, m, zero, l)
            else if l - start < MAX_OP_PAGES then ram[l - start]
            else m.flash[ppas[l - start]]
  {
    hide Program, Capped;
    CappedAt(m.flash, ppas, ram);
    assert LpaAgrees(g, m.t.ppa, l, m.t.lpa[l]);
    if start <= l < start + |ppas| {
      assert InRange(g, ppas[l - start]);
    } else if !Unmapped(m.t, l) {
      assert m.t.ppa[m.t.lpa[l]] != FREE_PPA;
      assert m.t.lpa[l] !in ppas;
    }
  }

  // ---- Reading ---------------------------------------------------------------------------

  // The state of the read loop after k pages: unmapped pages are zeroed, mapped ones wait in the operation.
  ghost predicate Reading<P>(g: Geometry, m: Media<P>, zero: P, start: nat, n: nat, k: nat, ram0: seq<P>, ram: seq<P>,
          op: seq<PageOp>) {
    && Sound(g, m) && start + n <= |m.t.lpa| && k <= n <= |ram|
    && Zeroed(m.t, zero, start, k, ram0, ram)
    && Waiting(m.t, start, k, op)
  }

  ghost predicate Zeroed<P>(t: Tables, zero: P, start: nat, k: nat, ram0: seq<P>, ram: seq<P>)
    requires start + k <= |t.lpa|
  {
    && |ram| == |ram0|
    && forall i | 0 <= i < |ram| :: ram[i] == if i < k && Unmapped(t, start + i) then zero else ram0[i]
  }

  predicate IsWaiting(t: Tables, start: nat, k: nat, op: seq<PageOp>, j: nat)
    requires start + k <= |t.lpa| && j < |op|
  {
    var s := op[j].slot;
    s < k && !Unmapped(t, start + s) && MappedCount(t, start, s) == j && op[j].ppa == t.lpa[start + s]
  }

  predicate Waits(t: Tables, start: nat, op: seq<PageOp>, s: nat)
    requires start + s < |t.lpa|
  {
    !Unmapped(t, start + s) && MappedCount(t, start, s) < MAX_OP_PAGES ==>
      MappedCount(t, start, s) < |op| && op[MappedCount(t, start, s)].slot == s
  }

  predicate Waiting(t: Tables, start: nat, k: nat, op: seq<PageOp>)
    requires start + k <= |t.lpa|
  {
    && |op| == (if MappedCount(t, start, k) < MAX_OP_PAGES then MappedCount(t, start, k) else MAX_OP_PAGES)
    && (forall j | 0 <= j < |op| :: IsWaiting(t, start, k, op, j))
    && (forall s | 0 <= s < k :: Waits(t, start, op, s))
  }

  lemma ReadNothing<P>(g: Geometry, m: Media<P>, zero: P, start: nat, n: nat, ram: seq<P>)
    requires Sound(g, m) && start + n <= |m.t.lpa| && n <= |ram|
    ensures Reading(g, m, zero, start, n, 0, ram, ram, [])
  {
  }

  lemma OneMoreWaits(t: Tables, start: nat, k: nat, op: seq<PageOp>, op': seq<PageOp>)
    requires start + k < |t.lpa| && Waiting(t, start, k, op)
    requires op' == if Unmapped(t, start + k) then op else AddOpPage(op, t.lpa[start + k], k)
    ensures Waiting(t, start, k + 1, op')
  {
    var next := k + 1;
    forall j | 0 <= j < |op'| ensures IsWaiting(t, start, next, op', j) {
      if j < |op| { assert IsWaiting(t, start, k, op, j); }
    }
    forall s | 0 <= s < k + 1 ensures Waits(t, start, op', s) {
      if s < k { assert Waits(t, start, op, s); }
    }
  }

  lemma ReadOneMore<P>(g: Geometry, m: Media<P>, zero: P, start: nat, n: nat, k: nat, ram0: seq<P>, ram: seq<P>,
          op: seq<PageOp>)
    requires Reading(g, m, zero, start, n, k, ram0, ram, op) && k < n
    ensures start + k < |m.t.lpa| && k < |ram|
    ensures Unmapped(m.t, start + k) ==> Reading(g, m, zero, start, n, k + 1, ram0, ram[k := zero], op)
    ensures !Unmapped(m.t, start + k) ==>
              Reading(g, m, zero, start, n, k + 1, ram0, ram, AddOpPage(op, m.t.lpa[start + k], k))
  {
    OneMoreWaits(m.t, start, k, op, if Unmapped(m.t, start + k) then op else AddOpPage(op, m.t.lpa[start + k], k));
  }

  lemma ReadSlot<P>(g: Geometry, m: Media<P>, zero: P, start: nat, n: nat, ram0: seq<P>, ram: seq<P>, op: seq<PageOp>,
          s: nat)
    requires Reading(g, m, zero, start, n, n, ram0, ram, op) && s < n
    requires SlotsIn(op, |ram|) && PagesIn(op, m.flash) && DistinctSlots(op)
    ensures ReadInto(m.flash, op, ram)[s] ==
            if Unmapped(m.t, start + s) || MappedCount(m.t, start, s) < MAX_OP_PAGES then Content(g, m, zero, start + s)
            else ram0[s]
  {
    hide Core, ReadInto, MappedCount;
    ReadIntoAt(m.flash, op, ram);
    assert Waits(m.t, start, op, s);
    var c := MappedCount(m.t, start, s);
    if !Unmapped(m.t, start + s) && c < MAX_OP_PAGES {
      assert IsWaiting(m.t, start, n, op, c);
    } else {
      forall j | 0 <= j < |op| ensures op[j].slot != s {
        assert IsWaiting(m.t, start, n, op, j);
      }
    }
  }

  lemma ReadDone<P>(g: Geometry, m: Media<P>, zero: P, start: nat, n: nat, ram0: seq<P>, ram: seq<P>, op: seq<PageOp>)
    requires Reading(g, m, zero, start, n, n, ram0, ram, op)
    ensures SlotsIn(op, |ram|) && PagesIn(op, m.flash)
    ensures forall i | 0 <= i < n ::
              ReadInto(m.flash, op, ram)[i] ==
              if Unmapped(m.t, start + i) || MappedCount(m.t, start, i) < MAX_OP_PAGES
                then Content(g, m, zero, start + i)
              else ram0[i]
    ensures forall i | n <= i < |ram| :: ReadInto(m.flash, op, ram)[i] == ram0[i]
  {
    forall j | 0 <= j < |op| ensures op[j].ppa in m.flash && op[j].slot < n {
      assert IsWaiting(m.t, start, n, op, j);
      assert LpaAgrees(g, m.t.ppa, start + op[j].slot, m.t.lpa[start + op[j].slot]);
    }
    assert SlotsIn(op, n);
    forall i, j | 0 <= i < j < |op| ensures op[i].slot != op[j].slot {
      assert IsWaiting(m.t, start, n, op, i) && IsWaiting(m.t, start, n, op, j);
    }
    ReadIntoAt(m.flash, op, ram);
    forall s | 0 <= s < n
      ensures ReadInto(m.flash, op, ram)[s] ==
              if Unmapped(m.t, start + s) || MappedCount(m.t, start, s) < MAX_OP_PAGES
                then Content(g, m, zero, start + s)
              else ram0[s]
    {
      ReadSlot(g, m, zero, start, n, ram0, ram, op, s);
    }
  }

  // The tables and the operation after the entries in `taken` have been mapped.
  ghost predicate Mapped(g: Geometry, t: Tables, taken: seq<WbcPage>, now: Tables, op: seq<PageOp>) {
    && Core(g, t) && InTable(EntryLpns(taken), |t.lpa|) && |taken| <= FreePages(g, t)
    && now == MapAll(g, t, EntryLpns(taken)).0
    && op == Ops(MapAll(g, t, EntryLpns(taken)).1, EntrySlots(taken))
  }

  // The request's pages are in range and there are free pages for all of them.
  ghost predicate Fits(g: Geometry, t: Tables, wbc: seq<WbcPage>, num: nat) {
    && (forall i | 0 <= i < |ToProgram(wbc, num)| :: ToProgram(wbc, num)[i].lpn < |t.lpa|)
    && g.Valid() && |ToProgram(wbc, num)| <= FreePages(g, t)
  }

  // The state of the loop when the first `icache` entries have been visited.
  ghost predicate Visited(g: Geometry, t: Tables, wbc: seq<WbcPage>, num: nat, icache: nat, now: Tables,
          op: seq<PageOp>) {
    && |wbc| == WBC_PAGES && icache <= WBC_PAGES && |op| <= icache
    && Fits(g, t, wbc, num)
    && Mapped(g, t, ToProgram(wbc[..icache], num), now, op)
  }

  lemma NothingVisited(g: Geometry, t: Tables, wbc: seq<WbcPage>, num: nat)
    requires Core(g, t) && |wbc| == WBC_PAGES && Fits(g, t, wbc, num)
    ensures Visited(g, t, wbc, num, 0, t, [])
  {
  }

  lemma AllVisited(g: Geometry, t: Tables, wbc: seq<WbcPage>, num: nat, icache: nat, now: Tables, op: seq<PageOp>)
    requires Visited(g, t, wbc, num, icache, now, op) && (num == 0 || icache == WBC_PAGES)
    ensures Mapped(g, t, ToProgram(wbc, num), now, op)
  {
    hide Mapped, Fits;
    if icache == WBC_PAGES { assert wbc[..icache] == wbc; }
  }

  lemma FlushResult<P>(g: Geometry, m: Media<P>, entries: seq<WbcPage>, now: Tables, op: seq<PageOp>, ram: seq<P>)
    requires Sound(g, m) && Mapped(g, m.t, entries, now, op)
    requires forall i | 0 <= i < |entries| :: entries[i].slot < |ram|
    ensures LpnsIn(BatchOf(entries, ram), |m.t.lpa|) && SlotsIn(op, |ram|)
    ensures WriteAll(g, m, BatchOf(entries, ram)) == Media(now, Program(m.flash, op, ram))
  {
    hide MakeMapping, MapAll, WriteAll, Core, FreePages, Program;
    var batch := BatchOf(entries, ram);
    BatchOfEntries(entries, ram);
    assert forall i | 0 <= i < |entries| :: EntryLpns(entries)[i] == entries[i].lpn;
    MapThenProgram(g, m, batch, EntrySlots(entries), ram);
  }

  // ---- Whole runs -------------------------------------------------------------------------

  // A run of flushes and programs; reads are between any two of them and change nothing (ReadPages).
  ghost function PagesWritten<P>(reqs: seq<seq<PageWrite<P>>>): nat {
    if reqs == [] then 0 else PagesWritten(reqs[..|reqs| - 1]) + |reqs[|reqs| - 1]|
  }

  predicate ReqsIn<P>(reqs: seq<seq<PageWrite<P>>>, n: nat) { forall i | 0 <= i < |reqs| :: LpnsIn(reqs[i], n) }

  ghost function Run<P>(g: Geometry, m: Media<P>, reqs: seq<seq<PageWrite<P>>>): (m': Media<P>)
    requires Sound(g, m) && ReqsIn(reqs, |m.t.lpa|) && PagesWritten(reqs) <= FreePages(g, m.t)
    ensures Sound(g, m') && |m'.t.lpa| == |m.t.lpa|
    ensures FreePages(g, m'.t) + PagesWritten(reqs) == FreePages(g, m.t)
  {
    if reqs == [] then m
    else
      var n := |reqs| - 1;
      WriteAll(g, Run(g, m, reqs[..n]), reqs[n])
  }

  function FlatRun<P>(disk: seq<P>, reqs: seq<seq<PageWrite<P>>>): (d: seq<P>)
    requires ReqsIn(reqs, |disk|)
    ensures |d| == |disk|
  {
    if reqs == [] then disk
    else
      var n := |reqs| - 1;
      FlatWrite(FlatRun(disk, reqs[..n]), reqs[n])
  }

  lemma {:induction false} RunRefines<P>(g: Geometry, m: Media<P>, zero: P, reqs: seq<seq<PageWrite<P>>>)
    requires Sound(g, m) && ReqsIn(reqs, |m.t.lpa|) && PagesWritten(reqs) <= FreePages(g, m.t)
    ensures Flat(g, Run(g, m, reqs), zero) == FlatRun(Flat(g, m, zero), reqs)
  {
    hide WriteAll, Core, FreePages, Flat;
    if reqs != [] {
      var n := |reqs| - 1;
      RunRefines(g, m, zero, reqs[..n]);
      WriteAllRefines(g, Run(g, m, reqs[..n]), zero, reqs[n]);
    }
  }

  /** From a new medium, whatever its flash held, every logical page reads as zeros until it is written and as
      its last written content from then on. */
  lemma RunFromNewMedia<P>(g: Geometry, lpns: nat, reserved: nat, flash: map<Ppa, P>, zero: P,
          reqs: seq<seq<PageWrite<P>>>)
    requires g.Valid() && reserved <= g.pages && lpns <= FREE_PPA && flash.Keys == AllPages(g)
    requires ReqsIn(reqs, lpns) && PagesWritten(reqs) + reserved <= g.TotalPages()
    ensures Core(g, NewMedia(g, lpns, reserved))
    ensures FreePages(g, NewMedia(g, lpns, reserved)) == g.TotalPages() - reserved
    ensures Flat(g, Run(g, Media(NewMedia(g, lpns, reserved), flash), reqs), zero) ==
      FlatRun(seq(lpns, _ => zero), reqs)
  {
    NewMediaCore(g, lpns, reserved);
    NewMediaCounted(g, lpns, reserved);
    var m := Media(NewMedia(g, lpns, reserved), flash);
    assert Flat(g, m, zero) == seq(lpns, _ => zero);
    RunRefines(g, m, zero, reqs);
  }

  /** The flash pages programmed over a run, in order. */
  ghost function Programmed<P>(g: Geometry, m: Media<P>, reqs: seq<seq<PageWrite<P>>>): seq<Ppa>
    requires Sound(g, m) && ReqsIn(reqs, |m.t.lpa|) && PagesWritten(reqs) <= FreePages(g, m.t)
  {
    hide Core, FreePages, WriteAll, MapAll;
    if reqs == [] then []
    else
      var n := |reqs| - 1;
      Programmed(g, m, reqs[..n]) + MapAll(g, Run(g, m, reqs[..n]).t, Lpns(reqs[n])).1
  }

  // The data of a run's writes, in order.
  function DataOf<P>(reqs: seq<seq<PageWrite<P>>>): (d: seq<P>) {
    if reqs == [] then []
    else
      var n := |reqs| - 1;
      DataOf(reqs[..n]) + seq(|reqs[n]|, i requires 0 <= i < |reqs[n]| => reqs[n][i].data)
  }

  /** The flash pages listed hold these data, and all others are unchanged. */
  ghost predicate Holding<P>(before: map<Ppa, P>, after: map<Ppa, P>, ppas: seq<Ppa>, data: seq<P>) {
    && after.Keys == before.Keys && |ppas| == |data|
    && (forall i | 0 <= i < |ppas| :: ppas[i] in after && after[ppas[i]] == data[i])
    && (forall p | p in before && p !in ppas :: after[p] == before[p])
  }

  predicate DistinctPpas(ppas: seq<Ppa>) { forall i, j | 0 <= i < j < |ppas| :: ppas[i] != ppas[j] }

  lemma HoldingChain<P>(f0: map<Ppa, P>, f1: map<Ppa, P>, f2: map<Ppa, P>, ps: seq<Ppa>, qs: seq<Ppa>, a: seq<P>,
          b: seq<P>)
    requires Holding(f0, f1, ps, a) && Holding(f1, f2, qs, b) && DistinctPpas(ps + qs)
    ensures Holding(f0, f2, ps + qs, a + b)
  {
    forall i | 0 <= i < |ps + qs| ensures (ps + qs)[i] in f2 && f2[(ps + qs)[i]] == (a + b)[i] {
      if i < |ps| {
        assert ps[i] in f1;
        forall j | 0 <= j < |qs| ensures qs[j] != ps[i] {
          assert (ps + qs)[i] != (ps + qs)[|ps| + j];
        }
      }
    }
  }

  /** A batch leaves its data, in order, on the pages it takes, and every other flash page as it was. */
  lemma BatchHolding<P>(g: Geometry, m: Media<P>, batch: seq<PageWrite<P>>)
    requires Sound(g, m) && LpnsIn(batch, |m.t.lpa|) && |batch| <= FreePages(g, m.t)
    ensures InTable(Lpns(batch), |m.t.lpa|)
    ensures Holding(m.flash, WriteAll(g, m, batch).flash, MapAll(g, m.t, Lpns(batch)).1,
              seq(|batch|, i requires 0 <= i < |batch| => batch[i].data))
  {
    hide Core, FreePages, WriteAll, MapAll, TookFresh;
    var data := seq(|batch|, i requires 0 <= i < |batch| => batch[i].data);
    MapThenProgram(g, m, batch, Range(0, |batch|), data);
    MapAllTakesFreshPages(g, m.t, Lpns(batch));
    FreshIn(g, m.t, MapAll(g, m.t, Lpns(batch)).0, MapAll(g, m.t, Lpns(batch)).1);
    ProgramBuffers(m.flash, MapAll(g, m.t, Lpns(batch)).1, data);
  }

  lemma FreshIn(g: Geometry, t: Tables, t': Tables, ppas: seq<Ppa>)
    requires Core(g, t) && Core(g, t') && TookFresh(g, t, t', ppas)
    ensures DistinctPpas(ppas) && forall i | 0 <= i < |ppas| :: ppas[i] in AllPages(g)
  {
  }

  /** The pages programmed over a run: one for each page written, holding that page's data, and no flash page outside
      the list has changed. None of them is programmed twice, and only pages that were FREE at the start are
      programmed. */
  lemma {:induction false} NoPageProgrammedTwice<P>(g: Geometry, m: Media<P>, reqs: seq<seq<PageWrite<P>>>)
    requires Sound(g, m) && ReqsIn(reqs, |m.t.lpa|) && PagesWritten(reqs) <= FreePages(g, m.t)
    ensures |Programmed(g, m, reqs)| == PagesWritten(reqs)
    ensures Holding(m.flash, Run(g, m, reqs).flash, Programmed(g, m, reqs), DataOf(reqs))
    ensures TookFresh(g, m.t, Run(g, m, reqs).t, Programmed(g, m, reqs))
  {
    hide WriteAll, MapAll, FreePages, TookFresh, Holding, Placed, Logged, Inverse;
    if reqs == [] {
      NothingProgrammed(g, m);
    } else {
      var n := |reqs| - 1;
      var before := Run(g, m, reqs[..n]);
      var ps, qs := Programmed(g, m, reqs[..n]), MapAll(g, before.t, Lpns(reqs[n])).1;
      NoPageProgrammedTwice(g, m, reqs[..n]);
      MapAllTakesFreshPages(g, before.t, Lpns(reqs[n]));
      TablesOfWriteAll(g, before, reqs[n]);
      TookFreshChain(g, m.t, before.t, Run(g, m, reqs).t, ps, qs);
      FreshIn(g, m.t, Run(g, m, reqs).t, ps + qs);
      BatchHolding(g, before, reqs[n]);
      HoldingChain(m.flash, before.flash, Run(g, m, reqs).flash, ps, qs, DataOf(reqs[..n]),
        seq(|reqs[n]|, i requires 0 <= i < |reqs[n]| => reqs[n][i].data));
    }
  }

  lemma NothingProgrammed<P>(g: Geometry, m: Media<P>)
    requires Sound(g, m)
    ensures Holding(m.flash, m.flash, [], []) && TookFresh(g, m.t, m.t, [])
  {
  }

  lemma TablesOfWriteAll<P>(g: Geometry, m: Media<P>, batch: seq<PageWrite<P>>)
    requires Sound(g, m) && LpnsIn(batch, |m.t.lpa|) && |batch| <= FreePages(g, m.t)
    ensures InTable(Lpns(batch), |m.t.lpa|)
    ensures WriteAll(g, m, batch).t == MapAll(g, m.t, Lpns(batch)).0
  {
    var ram := seq(|batch|, i requires 0 <= i < |batch| => batch[i].data);
    MapThenProgram(g, m, batch, Range(0, |batch|), ram);
  }

  lemma TookFreshChain(g: Geometry, t: Tables, t1: Tables, t2: Tables, ps: seq<Ppa>, qs: seq<Ppa>)
    requires Shape(g, t) && Shape(g, t1) && Shape(g, t2)
    requires TookFresh(g, t, t1, ps) && TookFresh(g, t1, t2, qs)
    ensures TookFresh(g, t, t2, ps + qs)
  {
    forall i | 0 <= i < |ps| ensures t2.ppa[ps[i]] != FREE_PPA {
      assert InRange(g, ps[i]) && t1.ppa[ps[i]] != FREE_PPA;
    }
  }
}
