/** The translation tables as values: what the page allocator and make_new_mapping compute,
    and the invariants they keep. */
module MappingTables {
  import opened Geometry

  // Values of a ppa_table entry that are not logical page numbers. An entry holds a logical page number
  // when both top bits are clear.
  const FREE_PPA := 0x4000_0000
  const INVALID_PPA := 0x8000_0000
  const RESERVED_PPA := 0xc000_0000
  const UNMAPPED_CHN := 0xFF

  type Entry = e: nat | e < U32

  datatype BlockMeta = BlockMeta(invalidPgs: nat, validPgs: nat)

  // The per-block counters are 16 bits wide.
  function Inc16(x: nat): nat { (x + 1) % 0x1_0000 }

  function Dec16(x: nat): nat { (x + 0xFFFF) % 0x1_0000 }

  datatype Totals = Totals(free: int, valid: int, invalid: int)

  /** lpa_table, ppa_table, last_page_per_plane, blk_table, last_searched_channel, last_selected_ppa, totals. */
  datatype Tables = Tables(
    lpa: seq<Ppa>,
    ppa: map<Ppa, Entry>,
    cursor: map<PlaneId, Ppa>,
    blk: map<BlockId, BlockMeta>,
    last: Ppa,
    selected: Ppa,
    totals: Totals)

  predicate HoldsLpn(e: Entry) { e < FREE_PPA }

  predicate Unmapped(t: Tables, l: nat)
    requires l < |t.lpa|
  {
    t.lpa[l].chn == UNMAPPED_CHN
  }

  // ---- Invariants --------------------------------------------------------------------

  ghost predicate Shape(g: Geometry, t: Tables) {
    && g.Valid()
    && |t.lpa| <= FREE_PPA
    && t.ppa.Keys == AllPages(g)
    && t.cursor.Keys == AllPlanes(g)
    && t.blk.Keys == AllBlocks(g)
  }

  ghost predicate CursorPlaced(g: Geometry, q: PlaneId, c: Ppa) {
    PlaneOf(c) == q && c.block < g.blocks && c.page <= g.pages
  }

  ghost predicate Placed(g: Geometry, t: Tables)
    requires Shape(g, t)
  {
    && (forall q {:trigger CursorPlaced(g, q, t.cursor[q])} | PlaneInRange(g, q) :: CursorPlaced(g, q, t.cursor[q]))
    && PlaneInRange(g, PlaneOf(t.last))
  }

  predicate Before(p: Ppa, c: Ppa) { p.block < c.block || (p.block == c.block && p.page < c.page) }

  /** Each plane is a log: its FREE pages are exactly those from the cursor on. */
  ghost predicate Logged(g: Geometry, ppa: map<Ppa, Entry>, cursor: map<PlaneId, Ppa>)
    requires ppa.Keys == AllPages(g) && cursor.Keys == AllPlanes(g)
  {
    forall p {:trigger PageLogged(ppa, cursor, p)} | InRange(g, p) :: PageLogged(ppa, cursor, p)
  }

  predicate PageLogged(ppa: map<Ppa, Entry>, cursor: map<PlaneId, Ppa>, p: Ppa)
    requires p in ppa && PlaneOf(p) in cursor
  {
    ppa[p] == FREE_PPA <==> !Before(p, cursor[PlaneOf(p)])
  }

  ghost predicate EntryAgrees(lpa: seq<Ppa>, p: Ppa, e: Entry) {
    if HoldsLpn(e) then e < |lpa| && lpa[e] == p else e in {FREE_PPA, INVALID_PPA, RESERVED_PPA}
  }

  ghost predicate LpaAgrees(g: Geometry, ppa: map<Ppa, Entry>, l: nat, p: Ppa) {
    p.chn == UNMAPPED_CHN || (InRange(g, p) && p in ppa && ppa[p] == l)
  }

  /** lpa_table and ppa_table are inverse to each other. */
  ghost predicate Inverse(g: Geometry, lpa: seq<Ppa>, ppa: map<Ppa, Entry>)
    requires ppa.Keys == AllPages(g)
  {
    && (forall l: nat {:trigger LpaAgrees(g, ppa, l, lpa[l])} | l < |lpa| :: LpaAgrees(g, ppa, l, lpa[l]))
    && (forall p {:trigger EntryAgrees(lpa, p, ppa[p])} | InRange(g, p) :: EntryAgrees(lpa, p, ppa[p]))
  }

  ghost predicate Core(g: Geometry, t: Tables) {
    Shape(g, t) && Placed(g, t) && Logged(g, t.ppa, t.cursor) && Inverse(g, t.lpa, t.ppa)
  }

  lemma NoSharedPage(g: Geometry, t: Tables, l: nat, m: nat)
    requires Core(g, t) && l < |t.lpa| && m < |t.lpa| && !Unmapped(t, l) && !Unmapped(t, m)
    ensures t.lpa[l] == t.lpa[m] ==> l == m
    ensures InRange(g, t.lpa[l]) && HoldsLpn(t.ppa[t.lpa[l]])
  {
    assert LpaAgrees(g, t.ppa, l, t.lpa[l]) && LpaAgrees(g, t.ppa, m, t.lpa[m]);
  }

  // ---- The odometer over planes --------------------------------------------------------

  function NextPlane(g: Geometry, q: PlaneId): PlaneId {
    if q.chn + 1 < g.channels then PlaneId(q.chn + 1, q.die, q.plane)
    else if q.die + 1 < g.dies then PlaneId(0, q.die + 1, q.plane)
    else if q.plane + 1 < g.planes then PlaneId(0, 0, q.plane + 1)
    else PlaneId(0, 0, 0)
  }

  function RingIndex(g: Geometry, q: PlaneId): nat { (q.plane * g.dies + q.die) * g.channels + q.chn }

  function RingDistance(g: Geometry, from: PlaneId, to: PlaneId): (d: int) {
    var d := RingIndex(g, to) - RingIndex(g, from) - 1;
    if d < 0 then d + g.TotalPlanes() else d
  }

  lemma RingIndexBounded(g: Geometry, q: PlaneId)
    requires g.Valid() && PlaneInRange(g, q)
    ensures RingIndex(g, q) < g.TotalPlanes()
  {
    BelowProduct(q.plane, g.planes, q.die, g.dies);
    BelowProduct(q.plane * g.dies + q.die, g.planes * g.dies, q.chn, g.channels);
  }

  lemma RingIndexInjective(g: Geometry, q: PlaneId, r: PlaneId)
    requires g.Valid() && PlaneInRange(g, q) && PlaneInRange(g, r) && RingIndex(g, q) == RingIndex(g, r)
    ensures q == r
  {
    RingIndexDecodes(g, q);
    RingIndexDecodes(g, r);
  }

  lemma RingIndexDecodes(g: Geometry, q: PlaneId)
    requires g.Valid() && PlaneInRange(g, q)
    ensures Digit(RingIndex(g, q), g.channels) == q.chn
    ensures Digit(Quotient(RingIndex(g, q), g.channels), g.dies) == q.die
    ensures Quotient(Quotient(RingIndex(g, q), g.channels), g.dies) == q.plane
  {
    DivMod(q.plane * g.dies + q.die, q.chn, g.channels);
    DivMod(q.plane, q.die, g.dies);
  }

  lemma NextPlaneIsSuccessor(g: Geometry, q: PlaneId)
    requires g.Valid() && PlaneInRange(g, q)
    ensures PlaneInRange(g, NextPlane(g, q))
    ensures RingIndex(g, NextPlane(g, q)) ==
            if RingIndex(g, q) + 1 == g.TotalPlanes() then 0 else RingIndex(g, q) + 1
  {
    if q.chn + 1 < g.channels {
      RingIndexBounded(g, NextPlane(g, q));
    } else if q.die + 1 < g.dies {
      NextDie(g, q);
      RingIndexBounded(g, NextPlane(g, q));
    } else {
      NextPlaneOrWrap(g, q);
      if q.plane + 1 < g.planes {
        RingIndexBounded(g, NextPlane(g, q));
      }
    }
  }

  lemma NextDie(g: Geometry, q: PlaneId)
    requires q.chn + 1 == g.channels
    ensures RingIndex(g, PlaneId(0, q.die + 1, q.plane)) == RingIndex(g, q) + 1
  {
    Carry(q.plane * g.dies + q.die, g.channels);
  }

  lemma NextPlaneOrWrap(g: Geometry, q: PlaneId)
    requires q.chn + 1 == g.channels && q.die + 1 == g.dies
    ensures RingIndex(g, PlaneId(0, 0, q.plane + 1)) == RingIndex(g, q) + 1
    ensures q.plane + 1 == g.planes ==> RingIndex(g, q) + 1 == g.TotalPlanes()
  {
    Carry(q.plane * g.dies + q.die, g.channels);
    Carry(q.plane, g.dies);
  }

  lemma Carry(hi: nat, base: nat)
    ensures (hi + 1) * base == hi * base + base
  {
  }

  lemma DistanceStep(g: Geometry, from: PlaneId, to: PlaneId)
    requires g.Valid() && PlaneInRange(g, from) && PlaneInRange(g, to)
    ensures 0 <= RingDistance(g, from, to) < g.TotalPlanes()
    ensures RingDistance(g, from, to) == 0 <==> NextPlane(g, from) == to
    ensures NextPlane(g, from) != to ==>
              RingDistance(g, NextPlane(g, from), to) == RingDistance(g, from, to) - 1
  {
    RingIndexBounded(g, from);
    RingIndexBounded(g, to);
    NextPlaneIsSuccessor(g, from);
    if RingIndex(g, NextPlane(g, from)) == RingIndex(g, to) {
      RingIndexInjective(g, NextPlane(g, from), to);
    }
  }

  function Advance(g: Geometry, q: PlaneId, k: nat): PlaneId
    decreases k
  {
    if k == 0 then q else Advance(g, NextPlane(g, q), k - 1)
  }

  /** The odometer is a single cycle: from any plane, each plane is met exactly once in TotalPlanes steps. */
  lemma {:induction false} OdometerIsOneCycle(g: Geometry, q: PlaneId, r: PlaneId, k: nat)
    requires g.Valid() && PlaneInRange(g, q) && PlaneInRange(g, r)
    requires 1 <= k <= g.TotalPlanes()
    ensures Advance(g, q, k) == r <==> k == RingDistance(g, q, r) + 1
    decreases k
  {
    DistanceStep(g, q, r);
    var n := NextPlane(g, q);
    NextPlaneIsSuccessor(g, q);
    if k == 1 {
      assert Advance(g, q, 1) == Advance(g, n, 0) == n;
    } else if n == r {
      // One full turn is needed to come back to r.
      DistanceStep(g, n, r);
      RingIndexBounded(g, q);
      OdometerIsOneCycle(g, n, r, k - 1);
    } else {
      OdometerIsOneCycle(g, n, r, k - 1);
    }
  }

  // ---- Finding a free page -------------------------------------------------------------

  predicate Full(g: Geometry, c: Ppa)
    requires g.Valid()
  {
    c.block == g.blocks - 1 && c.page == g.pages
  }

  function Head(g: Geometry, c: Ppa): Ppa {
    if c.page < g.pages then c else c.(block := c.block + 1, page := 0)
  }

  function Take(t: Tables, p: Ppa): Tables {
    var next := p.(page := p.page + 1);
    t.(cursor := t.cursor[PlaneOf(p) := next], last := next, selected := next)
  }

  datatype Search = Found(t: Tables, p: Ppa) | NotFound(t: Tables)

  /** find_free_page on a plane that is a log. */
  function FindFree(g: Geometry, t: Tables): Search
    requires g.Valid() && NextPlane(g, PlaneOf(t.last)) in t.cursor
  {
    var q := NextPlane(g, PlaneOf(t.last));
    var c := t.cursor[q];
    if Full(g, c) then NotFound(t.(last := c.(page := 0)))
    else Found(Take(t, Head(g, c)), Head(g, c))
  }

  ghost predicate HasRoom(g: Geometry, t: Tables)
    requires g.Valid()
  {
    exists q :: q in t.cursor && !Full(g, t.cursor[q])
  }

  ghost function OpenPlane(g: Geometry, cursor: map<PlaneId, Ppa>): (q: PlaneId)
    requires g.Valid() && exists q :: q in cursor && !Full(g, cursor[q])
    ensures q in cursor && !Full(g, cursor[q])
  {
    var q :| q in cursor && !Full(g, cursor[q]);
    q
  }

  datatype Allocation = Allocation(t: Tables, p: Ppa, calls: nat)

  /** get_free_ppa: repeats find_free_page until it succeeds. `calls` counts the searches. */
  ghost function GetFree(g: Geometry, t: Tables): (a: Allocation)
    requires Shape(g, t) && Placed(g, t) && HasRoom(g, t)
    ensures InRange(g, a.p) && a.p == Head(g, t.cursor[PlaneOf(a.p)])
    ensures a.t == Take(t, a.p)
    ensures !Full(g, t.cursor[PlaneOf(a.p)])
    decreases RingDistance(g, PlaneOf(t.last), OpenPlane(g, t.cursor))
  {
    var from, target := PlaneOf(t.last), OpenPlane(g, t.cursor);
    var q := NextPlane(g, from);
    DistanceStep(g, from, target);
    NextPlaneIsSuccessor(g, from);
    assert CursorPlaced(g, q, t.cursor[q]);
    match FindFree(g, t)
    case Found(t', p) => Allocation(t', p, 1)
    case NotFound(t') =>
      var a := GetFree(g, t');
      Allocation(a.t, a.p, a.calls + 1)
  }

  /** The page comes from the first plane with room, in odometer order, and one search is made per plane up to it. */
  lemma {:induction false} GetFreeTakesFirstOpenPlane(g: Geometry, t: Tables)
    requires Shape(g, t) && Placed(g, t) && HasRoom(g, t)
    ensures GetFree(g, t).calls == RingDistance(g, PlaneOf(t.last), PlaneOf(GetFree(g, t).p)) + 1
    ensures forall r | PlaneInRange(g, r) && RingDistance(g, PlaneOf(t.last), r) + 1 < GetFree(g, t).calls ::
              Full(g, t.cursor[r])
    decreases RingDistance(g, PlaneOf(t.last), OpenPlane(g, t.cursor))
  {
    var from, target := PlaneOf(t.last), OpenPlane(g, t.cursor);
    var q := NextPlane(g, from);
    DistanceStep(g, from, target);
    NextPlaneIsSuccessor(g, from);
    assert CursorPlaced(g, q, t.cursor[q]);
    AllDistancesStep(g, from);
    if Full(g, t.cursor[q]) {
      GetFreeTakesFirstOpenPlane(g, FindFree(g, t).t);
    }
  }

  /** Where an allocation leaves the odometer: on the plane of the page it took, with that page the last selected.
      It changes no entry and no counter. */
  lemma OdometerOnPageTaken(g: Geometry, t: Tables)
    requires Shape(g, t) && Placed(g, t) && HasRoom(g, t)
    ensures var a := GetFree(g, t);
            && PlaneOf(a.t.last) == PlaneOf(a.p) == PlaneOf(a.t.selected)
            && BlockOf(a.t.last) == BlockOf(a.p) == BlockOf(a.t.selected)
            && a.t.last.page == a.p.page + 1 == a.t.selected.page
            && a.t.lpa == t.lpa && a.t.ppa == t.ppa && a.t.blk == t.blk && a.t.totals == t.totals
  {
    hide Shape, Placed, HasRoom, Head, Full;
  }

  /** With room on the next plane of the odometer, one search is enough and the page comes from there. */
  lemma NextPlaneIsTaken(g: Geometry, t: Tables)
    requires Shape(g, t) && Placed(g, t) && NextPlane(g, PlaneOf(t.last)) in t.cursor
    requires !Full(g, t.cursor[NextPlane(g, PlaneOf(t.last))])
    ensures HasRoom(g, t)
    ensures GetFree(g, t).calls == 1 && PlaneOf(GetFree(g, t).p) == NextPlane(g, PlaneOf(t.last))
  {
    NextPlaneIsSuccessor(g, PlaneOf(t.last));
    assert CursorPlaced(g, NextPlane(g, PlaneOf(t.last)), t.cursor[NextPlane(g, PlaneOf(t.last))]);
  }

  lemma {:induction false} AdvanceInRange(g: Geometry, q: PlaneId, k: nat)
    requires g.Valid() && PlaneInRange(g, q)
    ensures PlaneInRange(g, Advance(g, q, k))
    decreases k
  {
    NextPlaneIsSuccessor(g, q);
    if k > 0 { AdvanceInRange(g, NextPlane(g, q), k - 1); }
  }

  lemma {:induction false} AdvanceSum(g: Geometry, q: PlaneId, j: nat, k: nat)
    ensures Advance(g, q, j + k) == Advance(g, Advance(g, q, j), k)
    decreases j
  {
    if j > 0 { AdvanceSum(g, NextPlane(g, q), j - 1, k); }
  }

  lemma AllDistancesStep(g: Geometry, from: PlaneId)
    requires g.Valid() && PlaneInRange(g, from)
    ensures forall r | PlaneInRange(g, r) ::
              && 0 <= RingDistance(g, from, r) < g.TotalPlanes()
              && (RingDistance(g, from, r) == 0 <==> NextPlane(g, from) == r)
              && (NextPlane(g, from) != r ==>
                    RingDistance(g, NextPlane(g, from), r) == RingDistance(g, from, r) - 1)
  {
    forall r | PlaneInRange(g, r)
      ensures && 0 <= RingDistance(g, from, r) < g.TotalPlanes()
              && (RingDistance(g, from, r) == 0 <==> NextPlane(g, from) == r)
              && (NextPlane(g, from) != r ==>
                    RingDistance(g, NextPlane(g, from), r) == RingDistance(g, from, r) - 1)
    {
      DistanceStep(g, from, r);
    }
  }

  // The head of a plane with room is the first page not before the cursor.
  lemma HeadIsNext(g: Geometry, c: Ppa, x: Ppa)
    requires g.Valid() && c.block < g.blocks && c.page <= g.pages && !Full(g, c)
    requires x.block < g.blocks && x.page < g.pages && PlaneOf(x) == PlaneOf(c)
    ensures Head(g, c).block < g.blocks && Head(g, c).page < g.pages && PlaneOf(Head(g, c)) == PlaneOf(c)
    ensures !Before(Head(g, c), c)
    ensures Before(x, Head(g, c).(page := Head(g, c).page + 1)) <==> Before(x, c) || x == Head(g, c)
  {
  }

  lemma FullIffNoFreePage(g: Geometry, t: Tables, q: PlaneId)
    requires Core(g, t) && PlaneInRange(g, q)
    ensures Full(g, t.cursor[q]) <==> forall p | InRange(g, p) && PlaneOf(p) == q :: t.ppa[p] != FREE_PPA
    ensures !Full(g, t.cursor[q]) ==>
              InRange(g, Head(g, t.cursor[q])) && t.ppa[Head(g, t.cursor[q])] == FREE_PPA
              && PlaneOf(Head(g, t.cursor[q])) == q
  {
    var c := t.cursor[q];
    assert CursorPlaced(g, q, c);
    if Full(g, c) {
      forall p | InRange(g, p) && PlaneOf(p) == q ensures t.ppa[p] != FREE_PPA {
        assert PageLogged(t.ppa, t.cursor, p);
        assert Before(p, c);
      }
    } else {
      var h := Head(g, c);
      HeadIsNext(g, c, h.(page := 0));
      assert InRange(g, h) && PageLogged(t.ppa, t.cursor, h);
    }
  }

  lemma RoomIffFreePage(g: Geometry, t: Tables)
    requires Core(g, t)
    ensures HasRoom(g, t) <==> exists p :: InRange(g, p) && t.ppa[p] == FREE_PPA
    ensures HasRoom(g, t) <==> 0 < CountKind(t.ppa, AllPages(g), Free)
  {
    if HasRoom(g, t) {
      var q := OpenPlane(g, t.cursor);
      FullIffNoFreePage(g, t, q);
      assert t.ppa[Head(g, t.cursor[q])] == FREE_PPA;
    }
    if p :| InRange(g, p) && t.ppa[p] == FREE_PPA {
      FullIffNoFreePage(g, t, PlaneOf(p));
      assert PlaneOf(p) in t.cursor;
      CountPositive(t.ppa, AllPages(g), Free, p);
    }
  }

  /** get_free_ppa finds a FREE page whenever there is one, within one search per plane. */
  lemma GetFreeFindsFree(g: Geometry, t: Tables)
    requires Core(g, t) && exists p :: InRange(g, p) && t.ppa[p] == FREE_PPA
    ensures HasRoom(g, t)
    ensures GetFree(g, t).calls <= g.TotalPlanes()
    ensures t.ppa[GetFree(g, t).p] == FREE_PPA
  {
    var p :| InRange(g, p) && t.ppa[p] == FREE_PPA;
    FullIffNoFreePage(g, t, PlaneOf(p));
    assert PlaneOf(p) in t.cursor;
    var a := GetFree(g, t);
    FullIffNoFreePage(g, t, PlaneOf(a.p));
    GetFreeTakesFirstOpenPlane(g, t);
    AllDistancesStep(g, PlaneOf(t.last));
  }

  /** Once the page taken is no longer FREE, its plane is again a log and no page before it was FREE. */
  lemma TakeKeepsLog(g: Geometry, t: Tables, e: Entry)
    requires Core(g, t) && HasRoom(g, t) && e != FREE_PPA
    ensures t.ppa[GetFree(g, t).p] == FREE_PPA
    ensures Shape(g, GetFree(g, t).t) && Placed(g, GetFree(g, t).t)
    ensures Logged(g, t.ppa[GetFree(g, t).p := e], GetFree(g, t).t.cursor)
  {
    var a := GetFree(g, t);
    TakingHeadKeepsLog(g, t, PlaneOf(a.p), e);
    FullIffNoFreePage(g, t, PlaneOf(a.p));
  }

  lemma TakingHeadKeepsLog(g: Geometry, t: Tables, q: PlaneId, e: Entry)
    requires Core(g, t) && PlaneInRange(g, q) && !Full(g, t.cursor[q]) && e != FREE_PPA
    ensures Shape(g, Take(t, Head(g, t.cursor[q]))) && Placed(g, Take(t, Head(g, t.cursor[q])))
    ensures InRange(g, Head(g, t.cursor[q]))
    ensures Logged(g, t.ppa[Head(g, t.cursor[q]) := e], Take(t, Head(g, t.cursor[q])).cursor)
  {
    var c := t.cursor[q];
    var h := Head(g, c);
    assert CursorPlaced(g, q, c);
    HeadIsNext(g, c, h.(page := 0));
    var t' := Take(t, h);
    forall r | PlaneInRange(g, r) ensures CursorPlaced(g, r, t'.cursor[r]) {
      assert CursorPlaced(g, r, t.cursor[r]);
    }
    forall x | InRange(g, x) ensures PageLogged(t.ppa[h := e], t'.cursor, x) {
      assert PageLogged(t.ppa, t.cursor, x);
      if PlaneOf(x) == q { HeadIsNext(g, c, x); }
    }
  }

  // One turn of get_free_ppa's loop, when the search succeeds and when it fails.
  lemma GetFreeStep(g: Geometry, t: Tables)
    requires Core(g, t) && HasRoom(g, t)
    ensures NextPlane(g, PlaneOf(t.last)) in t.cursor
    ensures PlaneInRange(g, NextPlane(g, PlaneOf(t.last)))
    ensures FindFree(g, t).Found? ==> GetFree(g, t) == Allocation(FindFree(g, t).t, FindFree(g, t).p, 1)
    ensures FindFree(g, t).NotFound? ==>
              && Core(g, FindFree(g, t).t) && HasRoom(g, FindFree(g, t).t)
              && FindFree(g, t).t.cursor == t.cursor
              && GetFree(g, t).t == GetFree(g, FindFree(g, t).t).t
              && GetFree(g, t).p == GetFree(g, FindFree(g, t).t).p
              && GetFree(g, t).calls == GetFree(g, FindFree(g, t).t).calls + 1
              && 0 <= RingDistance(g, PlaneOf(FindFree(g, t).t.last), OpenPlane(g, t.cursor))
                    < RingDistance(g, PlaneOf(t.last), OpenPlane(g, t.cursor))
  {
    var q := NextPlane(g, PlaneOf(t.last));
    NextPlaneIsSuccessor(g, PlaneOf(t.last));
    assert CursorPlaced(g, q, t.cursor[q]);
    AllDistancesStep(g, PlaneOf(t.last));
    AllDistancesStep(g, q);
    if Full(g, t.cursor[q]) {
      var t' := FindFree(g, t).t;
      forall r | PlaneInRange(g, r) ensures CursorPlaced(g, r, t'.cursor[r]) {
        assert CursorPlaced(g, r, t.cursor[r]);
      }
    }
  }

  // ---- Counting ------------------------------------------------------------------------

  datatype Kind = Free | Stale | Live

  // A reserved page is counted with the valid ones, as initialize_ftl does.
  function KindOf(e: Entry): Kind { if e == FREE_PPA then Free else if e == INVALID_PPA then Stale else Live }

  function OfKind(m: map<Ppa, Entry>, pages: set<Ppa>, k: Kind): set<Ppa> {
    set p | p in pages && p in m && KindOf(m[p]) == k
  }

  function CountKind(m: map<Ppa, Entry>, pages: set<Ppa>, k: Kind): nat { |OfKind(m, pages, k)| }

  function One(b: bool): nat { if b then 1 else 0 }

  lemma CountUpdate(m: map<Ppa, Entry>, pages: set<Ppa>, x: Ppa, e: Entry, k: Kind)
    requires x in m
    ensures CountKind(m[x := e], pages, k) + One(x in pages && KindOf(m[x]) == k)
            == CountKind(m, pages, k) + One(x in pages && KindOf(e) == k)
  {
    var before, after := OfKind(m, pages, k), OfKind(m[x := e], pages, k);
    assert before - {x} == after - {x} by {
      forall p ensures p in before - {x} <==> p in after - {x} {}
    }
    CardinalityWithout(before, x);
    CardinalityWithout(after, x);
  }

  lemma CardinalityWithout(s: set<Ppa>, x: Ppa)
    ensures |s| == |s - {x}| + One(x in s)
  {
    if x in s { assert s == s - {x} + {x}; } else { assert s == s - {x}; }
  }

  lemma CountPositive(m: map<Ppa, Entry>, pages: set<Ppa>, k: Kind, p: Ppa)
    requires p in pages && p in m && KindOf(m[p]) == k
    ensures 0 < CountKind(m, pages, k)
  {
    assert p in OfKind(m, pages, k);
  }

  /** The three kinds partition any set of pages. */
  lemma CountsPartition(m: map<Ppa, Entry>, pages: set<Ppa>)
    requires pages <= m.Keys
    ensures CountKind(m, pages, Free) + CountKind(m, pages, Stale) + CountKind(m, pages, Live) == |pages|
  {
    var f, s, v := OfKind(m, pages, Free), OfKind(m, pages, Stale), OfKind(m, pages, Live);
    assert f !! s && (f + s) !! v && f + s + v == pages;
    assert |f + s| == |f| + |s|;
    assert |f + s + v| == |f + s| + |v|;
  }

  ghost function PagesOf(g: Geometry, b: BlockId): set<Ppa> { set p | p in AllPages(g) && BlockOf(p) == b }

  ghost predicate BlockCounted(g: Geometry, t: Tables, b: BlockId) {
    && b in t.blk
    && t.blk[b].validPgs == CountKind(t.ppa, PagesOf(g, b), Live)
    && t.blk[b].invalidPgs == CountKind(t.ppa, PagesOf(g, b), Stale)
  }

  ghost predicate TotalsExact(g: Geometry, t: Tables) {
    t.totals == Totals(CountKind(t.ppa, AllPages(g), Free),
                       CountKind(t.ppa, AllPages(g), Live),
                       CountKind(t.ppa, AllPages(g), Stale))
  }

  /** Every block counter and every total equals the number of pages in that state. */
  ghost predicate Counted(g: Geometry, t: Tables) {
    (forall b | b in AllBlocks(g) :: BlockCounted(g, t, b)) && TotalsExact(g, t)
  }

  // ---- make_new_mapping ------------------------------------------------------------------

  function IncValid(blk: map<BlockId, BlockMeta>, b: BlockId): map<BlockId, BlockMeta>
    requires b in blk
  {
    blk[b := blk[b].(validPgs := Inc16(blk[b].validPgs))]
  }

  function DecValid(blk: map<BlockId, BlockMeta>, b: BlockId): map<BlockId, BlockMeta>
    requires b in blk
  {
    blk[b := blk[b].(validPgs := Dec16(blk[b].validPgs))]
  }

  function IncInvalid(blk: map<BlockId, BlockMeta>, b: BlockId): map<BlockId, BlockMeta>
    requires b in blk
  {
    blk[b := blk[b].(invalidPgs := Inc16(blk[b].invalidPgs))]
  }

  /** The table updates of make_new_mapping once page p has been allocated. */
  function Remap(t: Tables, l: nat, p: Ppa): Tables
    requires l < |t.lpa| <= FREE_PPA && BlockOf(p) in t.blk
    requires !Unmapped(t, l) ==> BlockOf(t.lpa[l]) in t.blk
  {
    if Unmapped(t, l) then
      t.(lpa := t.lpa[l := p],
         ppa := t.ppa[p := l],
         blk := IncValid(t.blk, BlockOf(p)),
         totals := t.totals.(valid := t.totals.valid + 1, free := t.totals.free - 1))
    else
      var was := t.lpa[l];
      t.(lpa := t.lpa[l := p],
         ppa := t.ppa[was := INVALID_PPA][p := l],
         blk := IncValid(DecValid(IncInvalid(t.blk, BlockOf(was)), BlockOf(was)), BlockOf(p)),
         totals := t.totals.(invalid := t.totals.invalid + 1, free := t.totals.free - 1))
  }

  ghost function MakeMapping(g: Geometry, t: Tables, l: nat): (r: (Tables, Ppa))
    requires Core(g, t) && HasRoom(g, t) && l < |t.lpa|
    ensures InRange(g, r.1)
  {
    var a := GetFree(g, t);
    assert LpaAgrees(g, t.ppa, l, t.lpa[l]);
    assert BlockOf(a.p) in t.blk && (!Unmapped(t, l) ==> BlockOf(t.lpa[l]) in t.blk);
    (Remap(a.t, l, a.p), a.p)
  }

  /** A new mapping keeps the tables inverse and the planes logs; it takes a FREE page, moves exactly this
      logical page to it and turns the page it left, if any, from valid to invalid. */
  lemma MakeMappingKeepsCore(g: Geometry, t: Tables, l: nat)
    requires Core(g, t) && HasRoom(g, t) && l < |t.lpa|
    ensures Core(g, MakeMapping(g, t, l).0)
    ensures t.ppa[MakeMapping(g, t, l).1] == FREE_PPA
    ensures Moved(g, t, MakeMapping(g, t, l).0, l, MakeMapping(g, t, l).1)
  {
    var a := GetFree(g, t);
    var t' := MakeMapping(g, t, l).0;
    var was := t.lpa[l];
    assert LpaAgrees(g, t.ppa, l, was);
    TakeKeepsLog(g, t, l);
    RemapKeepsInverse(g, t, l, a.p);
    forall x | InRange(g, x) ensures PageLogged(t'.ppa, t'.cursor, x) {
      assert PageLogged(t.ppa[a.p := l], a.t.cursor, x);
    }
  }

  /** A mapping leaves the odometer on the plane of the page it took. */
  lemma MappingMovesOdometer(g: Geometry, t: Tables, l: nat)
    requires Core(g, t) && HasRoom(g, t) && l < |t.lpa|
    ensures var (t', p) := MakeMapping(g, t, l);
            && PlaneOf(t'.last) == PlaneOf(p) == PlaneOf(t'.selected)
            && t'.last.page == p.page + 1 == t'.selected.page
            && RingDistance(g, PlaneOf(t.last), PlaneOf(p)) == GetFree(g, t).calls - 1
  {
    hide Placed, Logged, Inverse, HasRoom;
    OdometerOnPageTaken(g, t);
    GetFreeTakesFirstOpenPlane(g, t);
    assert LpaAgrees(g, t.ppa, l, t.lpa[l]) by { EntryOf(g, t, l); }
  }

  lemma EntryOf(g: Geometry, t: Tables, l: nat)
    requires Core(g, t) && l < |t.lpa|
    ensures LpaAgrees(g, t.ppa, l, t.lpa[l])
  {
  }

  ghost predicate Moved(g: Geometry, t: Tables, t': Tables, l: nat, p: Ppa)
    requires Shape(g, t) && Shape(g, t') && l < |t.lpa| && InRange(g, p)
  {
    && t'.lpa == t.lpa[l := p]
    && t'.ppa[p] == l
    && (!Unmapped(t, l) ==> InRange(g, t.lpa[l]) && t.ppa[t.lpa[l]] == l && t'.ppa[t.lpa[l]] == INVALID_PPA)
    && (forall x | InRange(g, x) && x != p && (Unmapped(t, l) || x != t.lpa[l]) :: t'.ppa[x] == t.ppa[x])
  }

  lemma RemapKeepsInverse(g: Geometry, t: Tables, l: nat, p: Ppa)
    requires Shape(g, t) && Inverse(g, t.lpa, t.ppa) && l < |t.lpa| && InRange(g, p) && t.ppa[p] == FREE_PPA
    requires BlockOf(p) in t.blk && (!Unmapped(t, l) ==> BlockOf(t.lpa[l]) in t.blk)
    ensures Shape(g, Remap(t, l, p)) && Inverse(g, Remap(t, l, p).lpa, Remap(t, l, p).ppa)
    ensures Moved(g, t, Remap(t, l, p), l, p)
  {
    var t' := Remap(t, l, p);
    assert LpaAgrees(g, t.ppa, l, t.lpa[l]);
    forall m: nat | m < |t'.lpa| ensures LpaAgrees(g, t'.ppa, m, t'.lpa[m]) {
      assert LpaAgrees(g, t.ppa, m, t.lpa[m]);
    }
    forall x | InRange(g, x) ensures EntryAgrees(t'.lpa, x, t'.ppa[x]) {
      assert EntryAgrees(t.lpa, x, t.ppa[x]);
    }
  }

  lemma MakeMappingKeepsCounts(g: Geometry, t: Tables, l: nat)
    requires Core(g, t) && Counted(g, t) && HasRoom(g, t) && l < |t.lpa|
    ensures Shape(g, MakeMapping(g, t, l).0) && Counted(g, MakeMapping(g, t, l).0)
    ensures MakeMapping(g, t, l).0.totals.free == t.totals.free - 1
  {
    var a := GetFree(g, t);
    TakeKeepsLog(g, t, l);
    assert forall b | b in AllBlocks(g) :: BlockCounted(g, t, b) == BlockCounted(g, a.t, b);
    assert LpaAgrees(g, t.ppa, l, t.lpa[l]);
    RemapKeepsCounts(g, a.t, l, a.p);
  }

  lemma RemapKeepsCounts(g: Geometry, t: Tables, l: nat, p: Ppa)
    requires Shape(g, t) && Inverse(g, t.lpa, t.ppa) && Counted(g, t)
    requires l < |t.lpa| && InRange(g, p) && t.ppa[p] == FREE_PPA
    requires BlockOf(p) in t.blk && (!Unmapped(t, l) ==> BlockOf(t.lpa[l]) in t.blk)
    ensures Shape(g, Remap(t, l, p)) && Counted(g, Remap(t, l, p))
  {
    RemapKeepsInverse(g, t, l, p);
    RemapKeepsTotals(g, t, l, p);
    forall b | b in AllBlocks(g) ensures BlockCounted(g, Remap(t, l, p), b) {
      RemapKeepsBlockCount(g, t, l, p, b);
    }
  }

  lemma RemapKeepsTotals(g: Geometry, t: Tables, l: nat, p: Ppa)
    requires Shape(g, t) && Inverse(g, t.lpa, t.ppa) && TotalsExact(g, t)
    requires l < |t.lpa| && InRange(g, p) && t.ppa[p] == FREE_PPA
    requires BlockOf(p) in t.blk && (!Unmapped(t, l) ==> BlockOf(t.lpa[l]) in t.blk)
    ensures TotalsExact(g, Remap(t, l, p))
  {
    RemapCounts(g, t, l, p, AllPages(g), Free);
    RemapCounts(g, t, l, p, AllPages(g), Live);
    RemapCounts(g, t, l, p, AllPages(g), Stale);
    assert LpaAgrees(g, t.ppa, l, t.lpa[l]);
  }

  lemma RemapKeepsBlockCount(g: Geometry, t: Tables, l: nat, p: Ppa, b: BlockId)
    requires Shape(g, t) && Inverse(g, t.lpa, t.ppa) && BlockCounted(g, t, b)
    requires l < |t.lpa| && InRange(g, p) && t.ppa[p] == FREE_PPA && b in AllBlocks(g)
    requires BlockOf(p) in t.blk && (!Unmapped(t, l) ==> BlockOf(t.lpa[l]) in t.blk)
    ensures BlockCounted(g, Remap(t, l, p), b)
  {
    var t' := Remap(t, l, p);
    RemapKeepsInverse(g, t, l, p);
    RemapCounts(g, t, l, p, PagesOf(g, b), Live);
    RemapCounts(g, t, l, p, PagesOf(g, b), Stale);
    BlockCountsSmall(g, t.ppa, b);
    BlockCountsSmall(g, t'.ppa, b);
    assert LpaAgrees(g, t.ppa, l, t.lpa[l]);
    assert p in PagesOf(g, b) <==> BlockOf(p) == b;
    if !Unmapped(t, l) {
      assert t.lpa[l] in PagesOf(g, b) <==> BlockOf(t.lpa[l]) == b;
      if BlockOf(t.lpa[l]) == b {
        CountPositive(t.ppa, PagesOf(g, b), Live, t.lpa[l]);
      }
    }
    RemapMeta(t, l, p, b);
  }

  // The counters of one block after a remap, when none of them wraps.
  lemma RemapMeta(t: Tables, l: nat, p: Ppa, b: BlockId)
    requires l < |t.lpa| <= FREE_PPA && BlockOf(p) in t.blk && b in t.blk
    requires !Unmapped(t, l) ==> BlockOf(t.lpa[l]) in t.blk
    requires t.blk[b].validPgs < 0xFFFF && t.blk[b].invalidPgs < 0xFFFF
    ensures var left := !Unmapped(t, l) && BlockOf(t.lpa[l]) == b;
            && (left ==> 0 < t.blk[b].validPgs) ==>
            && Remap(t, l, p).blk[b].validPgs + One(left) == t.blk[b].validPgs + One(BlockOf(p) == b)
            && Remap(t, l, p).blk[b].invalidPgs == t.blk[b].invalidPgs + One(left)
  {
  }

  lemma BlockCountsSmall(g: Geometry, m: map<Ppa, Entry>, b: BlockId)
    requires g.Valid() && b in AllBlocks(g) && m.Keys == AllPages(g)
    ensures CountKind(m, PagesOf(g, b), Free) + CountKind(m, PagesOf(g, b), Stale) + CountKind(m, PagesOf(g, b), Live)
            == g.pages
  {
    CountsPartition(m, PagesOf(g, b));
    BlockHasPages(b, g.pages);
    assert PagesOf(g, b) == FirstPages(b, g.pages);
  }

  // How a remap changes the counts of any set of pages.
  lemma RemapCounts(g: Geometry, t: Tables, l: nat, p: Ppa, pages: set<Ppa>, k: Kind)
    requires Shape(g, t) && Inverse(g, t.lpa, t.ppa) && l < |t.lpa| && InRange(g, p) && t.ppa[p] == FREE_PPA
    requires BlockOf(p) in t.blk && (!Unmapped(t, l) ==> BlockOf(t.lpa[l]) in t.blk)
    ensures var moved := !Unmapped(t, l) && t.lpa[l] in pages;
            CountKind(Remap(t, l, p).ppa, pages, k) + One(p in pages && k == Free) + One(moved && k == Live)
            == CountKind(t.ppa, pages, k) + One(p in pages && k == Live) + One(moved && k == Stale)
  {
    var was := t.lpa[l];
    assert LpaAgrees(g, t.ppa, l, was);
    if Unmapped(t, l) {
      CountUpdate(t.ppa, pages, p, l, k);
    } else {
      CountUpdate(t.ppa, pages, was, INVALID_PPA, k);
      CountUpdate(t.ppa[was := INVALID_PPA], pages, p, l, k);
    }
  }

  /** Conservation: the totals add up to the number of pages, and GET_FREE_PAGES of every block is its number
      of FREE pages. */
  lemma Conservation(g: Geometry, t: Tables, b: BlockId)
    requires Core(g, t) && Counted(g, t) && b in AllBlocks(g)
    ensures t.totals.free + t.totals.valid + t.totals.invalid == g.TotalPages()
    ensures g.pages - (t.blk[b].validPgs + t.blk[b].invalidPgs) == CountKind(t.ppa, PagesOf(g, b), Free)
  {
    CountsPartition(t.ppa, AllPages(g));
    AllPagesCount(g);
    BlockCountsSmall(g, t.ppa, b);
    assert BlockCounted(g, t, b);
  }

  function FirstPages(b: BlockId, n: nat): set<Ppa> {
    set i | 0 <= i < n :: Ppa(b.chn, b.die, b.plane, b.block, i)
  }

  lemma {:induction false} BlockHasPages(b: BlockId, n: nat)
    ensures |FirstPages(b, n)| == n
  {
    if n > 0 {
      BlockHasPages(b, n - 1);
      var last := Ppa(b.chn, b.die, b.plane, b.block, n - 1);
      assert FirstPages(b, n) == FirstPages(b, n - 1) + {last};
    }
  }

  // ---- New media -------------------------------------------------------------------------

  /** The tables of a new medium whose first `reserved` pages are set aside for the header. initialize_ftl
      reserves one. */
  ghost function NewMedia(g: Geometry, lpns: nat, reserved: nat): Tables
    requires g.Valid() && reserved <= g.pages
  {
    var first := PlaneId(0, 0, 0);
    Tables(
      seq(lpns, _ => Ppa(UNMAPPED_CHN, 0, 0, 0, 0)),
      map p | p in AllPages(g) ::
        if PlaneOf(p) == first && p.block == 0 && p.page < reserved then RESERVED_PPA else FREE_PPA,
      map q | q in AllPlanes(g) :: Ppa(q.chn, q.die, q.plane, 0, if q == first then reserved else 0),
      map b | b in AllBlocks(g) :: BlockMeta(0, if b == BlockId(0, 0, 0, 0) then reserved else 0),
      Ppa(0, 0, 0, 0, reserved),
      Ppa(0, 0, 0, 0, reserved),
      Totals(g.TotalPages() - reserved, reserved, 0))
  }

  lemma NewMediaCore(g: Geometry, lpns: nat, reserved: nat)
    requires g.Valid() && reserved <= g.pages && lpns <= FREE_PPA
    ensures Core(g, NewMedia(g, lpns, reserved))
  {
    var t := NewMedia(g, lpns, reserved);
    forall l: nat | l < |t.lpa| ensures LpaAgrees(g, t.ppa, l, t.lpa[l]) {}
    forall p | InRange(g, p) ensures EntryAgrees(t.lpa, p, t.ppa[p]) {}
  }

  /** The first page a new medium gives away is page 0 of block 0 on the plane after the header's. */
  lemma FirstPageOfNewMedia(g: Geometry, lpns: nat, reserved: nat)
    requires g.Valid() && reserved <= g.pages && lpns <= FREE_PPA && 1 < g.TotalPlanes()
    ensures var t, q := NewMedia(g, lpns, reserved), NextPlane(g, PlaneId(0, 0, 0));
            Core(g, t) && HasRoom(g, t) && GetFree(g, t).p == Ppa(q.chn, q.die, q.plane, 0, 0)
  {
    var t := NewMedia(g, lpns, reserved);
    NewMediaCore(g, lpns, reserved);
    NextPlaneIsSuccessor(g, PlaneId(0, 0, 0));
    NextPlaneIsTaken(g, t);
  }

  lemma NewMediaCounted(g: Geometry, lpns: nat, reserved: nat)
    requires g.Valid() && reserved <= g.pages && lpns <= FREE_PPA
    ensures Counted(g, NewMedia(g, lpns, reserved))
  {
    NewMediaCore(g, lpns, reserved);
    AllPagesCount(g);
    var t := NewMedia(g, lpns, reserved);
    var header := FirstPages(BlockId(0, 0, 0, 0), reserved);
    BlockHasPages(BlockId(0, 0, 0, 0), reserved);
    CountsPartition(t.ppa, AllPages(g));
    assert OfKind(t.ppa, AllPages(g), Live) == header;
    assert OfKind(t.ppa, AllPages(g), Stale) == {};
    forall b | b in AllBlocks(g) ensures BlockCounted(g, t, b) {
      assert OfKind(t.ppa, PagesOf(g, b), Stale) == {};
      assert OfKind(t.ppa, PagesOf(g, b), Live) == if b == BlockId(0, 0, 0, 0) then header else {};
    }
  }

  // ---- The search loop and its block wrap ------------------------------------------------

  datatype Scan = Hit(p: Ppa) | Miss | OutOfTable

  // First FREE page of the block from c on, if any.
  function ScanBlock(g: Geometry, ppa: map<Ppa, Entry>, c: Ppa): Scan
    decreases g.pages - c.page
  {
    if c.page >= g.pages then Miss
    else if c !in ppa then OutOfTable
    else if ppa[c] == FREE_PPA then Hit(c)
    else ScanBlock(g, ppa, c.(page := c.page + 1))
  }

  /** The block loop of find_free_page. The block index wraps when it exceeds `limit`: the source compares with
      BLOCKS_PER_PLANE, the model with the last block. */
  function ScanPlane(g: Geometry, ppa: map<Ppa, Entry>, c: Ppa, rounds: nat, limit: nat): Scan
    decreases rounds
  {
    if rounds == 0 then Miss
    else match ScanBlock(g, ppa, c)
      case Miss => ScanPlane(g, ppa, c.(block := if c.block + 1 > limit then 0 else c.block + 1, page := 0), rounds - 1,
        limit)
      case s => s
  }

  // What one call of find_free_page scans, and the tables it leaves when it finds nothing.
  function ScanNextPlane(g: Geometry, t: Tables): Scan
    requires g.Valid() && NextPlane(g, PlaneOf(t.last)) in t.cursor
  {
    ScanPlane(g, t.ppa, t.cursor[NextPlane(g, PlaneOf(t.last))], g.blocks, g.blocks - 1)
  }

  function NoRoom(g: Geometry, t: Tables): Tables
    requires NextPlane(g, PlaneOf(t.last)) in t.cursor
  {
    t.(last := t.cursor[NextPlane(g, PlaneOf(t.last))].(page := 0))
  }

  lemma {:induction false} ScanUsedBlock(g: Geometry, t: Tables, c: Ppa)
    requires Core(g, t) && PlaneInRange(g, PlaneOf(c)) && c.block < g.blocks && Full(g, t.cursor[PlaneOf(c)])
    ensures ScanBlock(g, t.ppa, c) == Miss
    decreases g.pages - c.page
  {
    if c.page < g.pages {
      assert InRange(g, c) && PageLogged(t.ppa, t.cursor, c);
      assert CursorPlaced(g, PlaneOf(c), t.cursor[PlaneOf(c)]);
      ScanUsedBlock(g, t, c.(page := c.page + 1));
    }
  }

  lemma {:induction false} ScanUsedPlane(g: Geometry, t: Tables, c: Ppa, rounds: nat)
    requires Core(g, t) && PlaneInRange(g, PlaneOf(c)) && c.block < g.blocks && Full(g, t.cursor[PlaneOf(c)])
    ensures ScanPlane(g, t.ppa, c, rounds, g.blocks - 1) == Miss
    decreases rounds
  {
    if rounds > 0 {
      ScanUsedBlock(g, t, c);
      ScanUsedPlane(g, t, c.(block := if c.block + 1 > g.blocks - 1 then 0 else c.block + 1, page := 0), rounds - 1);
    }
  }

  lemma ScanFindsHead(g: Geometry, t: Tables, q: PlaneId, limit: nat)
    requires Core(g, t) && PlaneInRange(g, q) && !Full(g, t.cursor[q]) && limit >= g.blocks - 1
    ensures ScanPlane(g, t.ppa, t.cursor[q], g.blocks, limit) == Hit(Head(g, t.cursor[q]))
  {
    var c := t.cursor[q];
    assert CursorPlaced(g, q, c);
    FullIffNoFreePage(g, t, q);
    var h := Head(g, c);
    assert ScanBlock(g, t.ppa, h) == Hit(h);
    if c.page == g.pages {
      assert ScanBlock(g, t.ppa, c) == Miss;
      assert ScanPlane(g, t.ppa, c, g.blocks, limit) == ScanPlane(g, t.ppa, h, g.blocks - 1, limit);
    }
  }

  /** The search loop computes FindFree. */
  lemma ScanIsFindFree(g: Geometry, t: Tables, q: PlaneId)
    requires Core(g, t) && PlaneInRange(g, q)
    ensures ScanPlane(g, t.ppa, t.cursor[q], g.blocks, g.blocks - 1)
            == if Full(g, t.cursor[q]) then Miss else Hit(Head(g, t.cursor[q]))
  {
    assert CursorPlaced(g, q, t.cursor[q]);
    if Full(g, t.cursor[q]) {
      ScanUsedPlane(g, t, t.cursor[q], g.blocks);
    } else {
      ScanFindsHead(g, t, q, g.blocks - 1);
    }
  }

  /** With the wrap test as written in the source, the search stays inside the table exactly when the plane
      still has a free page (or has a single block); it then finds the same page. */
  lemma WrapAsWrittenInRangeIff(g: Geometry, t: Tables, q: PlaneId)
    requires Core(g, t) && PlaneInRange(g, q)
    ensures ScanPlane(g, t.ppa, t.cursor[q], g.blocks, g.blocks) != OutOfTable
            <==> !Full(g, t.cursor[q]) || g.blocks == 1
    ensures ScanPlane(g, t.ppa, t.cursor[q], g.blocks, g.blocks) != OutOfTable ==>
              ScanPlane(g, t.ppa, t.cursor[q], g.blocks, g.blocks)
              == ScanPlane(g, t.ppa, t.cursor[q], g.blocks, g.blocks - 1)
  {
    var c := t.cursor[q];
    assert CursorPlaced(g, q, c);
    ScanIsFindFree(g, t, q);
    if Full(g, c) {
      var past := c.(block := g.blocks, page := 0);
      assert ScanBlock(g, t.ppa, c) == Miss;
      assert ScanPlane(g, t.ppa, c, g.blocks, g.blocks) == ScanPlane(g, t.ppa, past, g.blocks - 1, g.blocks);
      assert !InRange(g, past);
      assert ScanBlock(g, t.ppa, past) == OutOfTable;
    } else {
      ScanFindsHead(g, t, q, g.blocks);
    }
  }

  /** Each new mapping uses up exactly one FREE page. */
  lemma MakeMappingTakesOne(g: Geometry, t: Tables, l: nat)
    requires Core(g, t) && HasRoom(g, t) && l < |t.lpa|
    ensures CountKind(MakeMapping(g, t, l).0.ppa, AllPages(g), Free) + 1 == CountKind(t.ppa, AllPages(g), Free)
  {
    var a := GetFree(g, t);
    TakeKeepsLog(g, t, l);
    assert LpaAgrees(g, t.ppa, l, t.lpa[l]);
    RemapCounts(g, a.t, l, a.p, AllPages(g), Free);
  }

  // The state of get_free_ppa's loop after `calls` failed searches.
  ghost predicate Searching(g: Geometry, t: Tables, turn: Tables, calls: nat) {
    && Core(g, t) && HasRoom(g, t) && Core(g, turn) && HasRoom(g, turn) && turn.cursor == t.cursor
    && GetFree(g, turn).t == GetFree(g, t).t
    && GetFree(g, turn).p == GetFree(g, t).p
    && GetFree(g, turn).calls + calls == GetFree(g, t).calls
  }

  lemma ScanIsTurn(g: Geometry, t: Tables, ok: bool, p: Ppa, after: Tables)
    requires Core(g, t) && NextPlane(g, PlaneOf(t.last)) in t.cursor
    requires ok ==> ScanNextPlane(g, t) == Hit(p) && after == Take(t, p)
    requires !ok ==> ScanNextPlane(g, t) == Miss && after == NoRoom(g, t)
    ensures FindFree(g, t) == if ok then Found(after, p) else NotFound(after)
  {
    NextPlaneIsSuccessor(g, PlaneOf(t.last));
    ScanIsFindFree(g, t, NextPlane(g, PlaneOf(t.last)));
  }

  lemma SearchTurn(g: Geometry, t: Tables, before: Tables, calls: nat, ok: bool, p: Ppa, after: Tables)
    requires Searching(g, t, before, calls) && NextPlane(g, PlaneOf(before.last)) in before.cursor
    requires FindFree(g, before) == if ok then Found(after, p) else NotFound(after)
    ensures ok ==> after == GetFree(g, t).t && p == GetFree(g, t).p && calls + 1 == GetFree(g, t).calls
    ensures !ok ==> Searching(g, t, after, calls + 1)
    ensures !ok ==> 0 <= RingDistance(g, PlaneOf(after.last), OpenPlane(g, t.cursor))
                      < RingDistance(g, PlaneOf(before.last), OpenPlane(g, t.cursor))
  {
    GetFreeStep(g, before);
  }

  // The tables as the table generator writes them.
  ghost function Blank(g: Geometry, lpns: nat): Tables
    requires g.Valid()
  {
    var first := Ppa(0, 0, 0, 0, 0);
    Tables(
      seq(lpns, _ => Ppa(UNMAPPED_CHN, 0, 0, 0, 0)),
      map p | p in AllPages(g) :: FREE_PPA,
      map q | q in AllPlanes(g) :: Ppa(q.chn, q.die, q.plane, 0, 0),
      map b | b in AllBlocks(g) :: BlockMeta(0, 0),
      first, first, Totals(0, 0, 0))
  }

  lemma ReservingFirstPage(g: Geometry, lpns: nat)
    requires g.Valid()
    ensures BlockId(0, 0, 0, 0) in Blank(g, lpns).blk
    ensures var t := Blank(g, lpns);
            var next := Ppa(0, 0, 0, 0, 1);
            t.(ppa := t.ppa[Ppa(0, 0, 0, 0, 0) := RESERVED_PPA],
               blk := IncValid(t.blk, BlockId(0, 0, 0, 0)),
               cursor := t.cursor[PlaneId(0, 0, 0) := next],
               last := next,
               selected := next,
               totals := Totals(g.TotalPages() - 1, 1, 0))
            == NewMedia(g, lpns, 1)
  {
    ReservingFirstPageMaps(g, lpns);
    ReservingFirstPageCounter(g, lpns);
  }

  lemma ReservingFirstPageMaps(g: Geometry, lpns: nat)
    requires g.Valid()
    ensures Blank(g, lpns).ppa[Ppa(0, 0, 0, 0, 0) := RESERVED_PPA] == NewMedia(g, lpns, 1).ppa
    ensures Blank(g, lpns).cursor[PlaneId(0, 0, 0) := Ppa(0, 0, 0, 0, 1)] == NewMedia(g, lpns, 1).cursor
  {
  }

  lemma ReservingFirstPageCounter(g: Geometry, lpns: nat)
    requires g.Valid()
    ensures BlockId(0, 0, 0, 0) in Blank(g, lpns).blk
    ensures IncValid(Blank(g, lpns).blk, BlockId(0, 0, 0, 0)) == NewMedia(g, lpns, 1).blk
  {
    var first := BlockId(0, 0, 0, 0);
    assert first in AllBlocks(g);
    assert Blank(g, lpns).blk[first := BlockMeta(0, 1)] == NewMedia(g, lpns, 1).blk;
  }
}
