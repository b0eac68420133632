/** Decoding a command's data pointer: two physical region page entries, the second of which may point to a chain of
    list pages, become one segment of host memory per page (section 4.3 of NVM Express 1.1). */
module PrpList {
  import opened Geometry

  datatype Segment = Segment(addr: nat, len: nat)

  // Host memory as the decoder sees it: the 64-bit word at an address.
  type Words = nat -> nat

  // A page holds at least two list entries.
  predicate PageSize(page: nat) { 16 <= page && page % 8 == 0 }

  // The last slot of a list page, maxPrpEntries - 1.
  function LastSlot(page: nat): (d: nat)
    requires PageSize(page)
    ensures 0 < d
  {
    page / 8 - 1
  }

  function Min(a: nat, b: nat): nat { if a < b then a else b }

  // Bytes taken by the first entry, and pages for the rest.
  function First(prp1: nat, size: nat, page: nat): (n: nat)
    requires 0 < page
    ensures n <= size
  {
    Min(size, page - prp1 % page)
  }

  function Pages(len: nat, page: nat): nat
    requires 0 < page
  {
    Quotient(len + page - 1, page)
  }

  // ---- The list as the decoder walks it: a list page is always page / 8 slots from its pointer --------------

  // List page j: the last entry of each full list page points to the next.
  function ListPage(word: Words, list: nat, d: nat, j: nat): nat {
    if j == 0 then list else word(ListPage(word, list, d, j - 1) + 8 * d)
  }

  // Data entry k of n sits in this list page, at this slot: a last entry that would be alone on a page of its own
  // takes the place of the pointer to it.
  function ListOf(n: nat, d: nat, k: nat): nat
    requires 0 < d
  {
    if 0 < k && k == n - 1 && Digit(k, d) == 0 then Quotient(k, d) - 1 else Quotient(k, d)
  }

  function SlotOf(n: nat, d: nat, k: nat): nat
    requires 0 < d
  {
    if 0 < k && k == n - 1 && Digit(k, d) == 0 then d else Digit(k, d)
  }

  function EntryAt(word: Words, list: nat, d: nat, n: nat, k: nat): nat
    requires 0 < d
  {
    word(ListPage(word, list, d, ListOf(n, d, k)) + 8 * SlotOf(n, d, k))
  }

  // An entry that may be followed: not null and page-aligned.
  predicate Aligned(entry: nat, page: nat)
    requires 0 < page
  {
    entry != 0 && entry % page == 0
  }

  predicate ListGood(word: Words, list: nat, page: nat, n: nat)
    requires PageSize(page) && 0 < n
  {
    var d := LastSlot(page);
    && (forall k | 0 <= k < n :: Aligned(EntryAt(word, list, d, n, k), page))
    && (forall j | 1 <= j <= ListOf(n, d, n - 1) :: Aligned(ListPage(word, list, d, j), page))
  }

  /** When a data pointer can be decoded. */
  predicate Decodable(word: Words, prp1: nat, prp2: nat, size: nat, page: nat)
    requires PageSize(page)
  {
    var rest := size - First(prp1, size, page);
    && prp1 != 0
    && (rest > 0 ==> prp2 != 0)
    && (0 < rest <= page ==> prp2 % page == 0)
    && (rest > page ==> PagesPositive(rest, page) && ListGood(word, prp2, page, Pages(rest, page)))
  }

  predicate PagesPositive(len: nat, page: nat)
    requires 0 < page
  {
    0 < Pages(len, page)
  }

  function SegmentLen(rest: nat, page: nat, n: nat, k: nat): nat {
    if k + 1 == n && rest >= k * page then rest - k * page else page
  }

  /** The segments of a data pointer that can be decoded. */
  function Segments(word: Words, prp1: nat, prp2: nat, size: nat, page: nat): seq<Segment>
    requires PageSize(page)
  {
    var rest := size - First(prp1, size, page);
    [Segment(prp1, First(prp1, size, page))]
    + if rest == 0 then []
      else if rest <= page then [Segment(prp2, rest)]
      else ListSegments(word, prp2, rest, page, Pages(rest, page))
  }

  // The first m segments described by the list.
  function ListSegments(word: Words, list: nat, rest: nat, page: nat, m: nat): seq<Segment>
    requires PageSize(page)
  {
    seq(m, k requires 0 <= k =>
      Segment(EntryAt(word, list, LastSlot(page), Pages(rest, page), k), SegmentLen(rest, page, Pages(rest, page), k)))
  }

  // ---- Arithmetic of the walk -------------------------------------------------------------------------

  lemma PagesBounds(len: nat, page: nat)
    requires 0 < page && 0 < len
    ensures 0 < Pages(len, page)
    ensures (Pages(len, page) - 1) * page < len <= Pages(len, page) * page
  {
    var n := Pages(len, page);
    var x := len + page - 1;
    assert x == n * page + x % page;
    assert (n - 1) * page == n * page - page;
  }

  // What is left after k pages.
  function LenLeft(rest: nat, page: nat, k: nat): nat { if rest >= k * page then rest - k * page else 0 }

  lemma LenLeftStep(rest: nat, page: nat, k: nat)
    requires 0 < page && 0 < rest && k < Pages(rest, page)
    ensures 0 < LenLeft(rest, page, k)
    ensures LenLeft(rest, page, k) > page <==> k + 1 < Pages(rest, page)
    ensures SegmentLen(rest, page, Pages(rest, page), k) == Min(LenLeft(rest, page, k), page)
    ensures LenLeft(rest, page, k + 1) == LenLeft(rest, page, k) - Min(LenLeft(rest, page, k), page)
    ensures LenLeft(rest, page, k + 1) == 0 <==> k + 1 == Pages(rest, page)
    ensures Pages(LenLeft(rest, page, k), page) == Pages(rest, page) - k
  {
    var n := Pages(rest, page);
    PagesBounds(rest, page);
    assert (k + 1) * page == k * page + page;
    MulMono(k, n - 1, page);
    if k + 1 < n { MulMono(k + 1, n - 1, page); }
    PagesOf(LenLeft(rest, page, k), page, n - k);
  }

  lemma PagesOf(len: nat, page: nat, n: nat)
    requires 0 < page && 0 < n && (n - 1) * page < len <= n * page
    ensures Pages(len, page) == n
  {
    var lo := len + page - 1 - n * page;
    assert (n - 1) * page == n * page - page;
    DivMod(n, lo, page);
  }

  // Where the walk stands: k entries have been taken, the next is at slot i of list page j.
  lemma PositionOf(n: nat, d: nat, k: nat, j: nat, i: nat)
    requires 0 < d && k < n && k == j * d + i
    requires if i < d then i == 0 ==> j == 0 || k + 1 < n else i == d && k + 1 == n
    ensures ListOf(n, d, k) == j && SlotOf(n, d, k) == i
  {
    if i < d {
      DivMod(j, i, d);
    } else {
      assert (j + 1) * d == j * d + d;
      DivMod(j + 1, 0, d);
    }
  }

  // A pointer that the walk follows is one the list must have.
  lemma ListReaches(n: nat, d: nat, k: nat, j: nat)
    requires 0 < d && k == j * d + d && k + 1 < n
    ensures j + 1 <= ListOf(n, d, n - 1)
  {
    assert (j + 1) * d == j * d + d;
    DivMod(j + 1, 0, d);
    QuotientMono(k, n - 1, d);
    if Digit(n - 1, d) == 0 {
      assert n - 1 == Quotient(n - 1, d) * d;
      MulOrder(j + 1, Quotient(n - 1, d), d);
    }
  }

  lemma QuotientMono(a: nat, b: nat, d: nat)
    requires 0 < d && a <= b
    ensures Quotient(a, d) <= Quotient(b, d)
  {
    assert a == Quotient(a, d) * d + Digit(a, d) && b == Quotient(b, d) * d + Digit(b, d);
    assert (Quotient(b, d) + 1) * d == Quotient(b, d) * d + d;
    if Quotient(b, d) < Quotient(a, d) {
      MulMono(Quotient(b, d) + 1, Quotient(a, d), d);
    }
  }

  // ---- The walk -----------------------------------------------------------------------------------------

  datatype Place = Place(k: nat, j: nat, i: nat, len: nat)

  /** The state of the loop of decode_prp: the entries before k and the list pages up to j are good, and the buffer
      holds the part of list page j that is still needed. */
  ghost predicate Walked(word: Words, list: nat, rest: nat, page: nat, at: Place, buf: seq<nat>) {
    && PageSize(page) && page < rest && |buf| > LastSlot(page)
    && var d, n := LastSlot(page), Pages(rest, page);
       && at.k <= n && at.len == LenLeft(rest, page, at.k)
       && at.k == at.j * d + at.i
       && (at.len > 0 <==> at.k < n)
       && (at.len > 0 ==> at.i <= d && (at.i == 0 ==> at.j == 0))
       && (at.len == 0 ==> ListOf(n, d, n - 1) <= at.j)
       && EntriesGood(word, list, page, n, at.k) && ListsGood(word, list, page, at.j)
       && (at.len > 0 ==> Loaded(word, ListPage(word, list, d, at.j), d, at.i, Pages(at.len, page), buf))
  }

  ghost predicate EntriesGood(word: Words, list: nat, page: nat, n: nat, k: nat)
    requires PageSize(page)
  {
    forall e | 0 <= e < k :: Aligned(EntryAt(word, list, LastSlot(page), n, e), page)
  }

  ghost predicate ListsGood(word: Words, list: nat, page: nat, j: nat)
    requires PageSize(page)
  {
    forall l | 1 <= l <= j :: Aligned(ListPage(word, list, LastSlot(page), l), page)
  }

  // Slots from i on, as far as `left` pages need them, are in the buffer.
  predicate Loaded(word: Words, addr: nat, d: nat, i: nat, left: nat, buf: seq<nat>) {
    && d < |buf|
    && forall s | i <= s <= d && s < i + left :: buf[s] == word(addr + 8 * s)
  }

  lemma WalkStarts(word: Words, list: nat, rest: nat, page: nat, buf: seq<nat>)
    requires PageSize(page) && page < rest && |buf| > LastSlot(page)
    requires Loaded(word, list, LastSlot(page), 0, Pages(rest, page), buf)
    ensures Walked(word, list, rest, page, Place(0, 0, 0, rest), buf)
  {
    PagesBounds(rest, page);
    assert LenLeft(rest, page, 0) == rest;
  }

  lemma PointerMustBeGood(word: Words, list: nat, page: nat, n: nat, j: nat)
    requires PageSize(page) && 0 < n && 1 <= j <= ListOf(n, LastSlot(page), n - 1)
    ensures !Aligned(ListPage(word, list, LastSlot(page), j), page) ==> !ListGood(word, list, page, n)
  {
  }

  lemma OneMorePage(word: Words, list: nat, page: nat, j: nat)
    requires PageSize(page) && ListsGood(word, list, page, j)
    requires Aligned(ListPage(word, list, LastSlot(page), j + 1), page)
    ensures ListsGood(word, list, page, j + 1)
  {
    hide ListPage, Aligned, LastSlot;
  }

  // At the last slot of a list page, with more than a page to go, the walk moves to the next list page.
  lemma WalkChains(word: Words, list: nat, rest: nat, page: nat, at: Place, buf: seq<nat>)
    requires Walked(word, list, rest, page, at, buf) && at.len > page && at.i == LastSlot(page)
    ensures buf[at.i] == ListPage(word, list, LastSlot(page), at.j + 1)
    ensures at.k < Pages(rest, page)
    ensures !Aligned(buf[at.i], page) ==> !ListGood(word, list, page, Pages(rest, page))
    ensures SlotOf(Pages(rest, page), LastSlot(page), at.k) == 0
    ensures ListOf(Pages(rest, page), LastSlot(page), at.k) == at.j + 1
    ensures Aligned(buf[at.i], page) ==> ListsGood(word, list, page, at.j + 1)
    ensures at.k == (at.j + 1) * LastSlot(page)
  {
    hide EntriesGood, ListsGood, Pages, LenLeft, LastSlot, ListOf, SlotOf, Aligned, ListGood, Quotient, Digit;
    var d, n := LastSlot(page), Pages(rest, page);
    LenLeftStep(rest, page, at.k);
    ListReaches(n, d, at.k, at.j);
    assert (at.j + 1) * d == at.j * d + d;
    PositionOf(n, d, at.k, at.j + 1, 0);
    PointerMustBeGood(word, list, page, n, at.j + 1);
    if Aligned(buf[at.i], page) { OneMorePage(word, list, page, at.j); }
  }

  // Otherwise the next entry is at the walk's own place.
  lemma WalkStays(word: Words, list: nat, rest: nat, page: nat, at: Place, buf: seq<nat>)
    requires Walked(word, list, rest, page, at, buf) && at.len > 0 && !(at.i == LastSlot(page) && at.len > page)
    ensures at.k < Pages(rest, page) && at.i < |buf|
    ensures buf[at.i] == EntryAt(word, list, LastSlot(page), Pages(rest, page), at.k)
    ensures SlotOf(Pages(rest, page), LastSlot(page), at.k) == at.i
    ensures ListOf(Pages(rest, page), LastSlot(page), at.k) == at.j
  {
    hide EntriesGood, ListsGood, Pages, LenLeft;
    LenLeftStep(rest, page, at.k);
    PositionOf(Pages(rest, page), LastSlot(page), at.k, at.j, at.i);
  }

  // Taking the entry at slot i of list page j.
  lemma WalkTakes(word: Words, list: nat, rest: nat, page: nat, k: nat, j: nat, i: nat, buf: seq<nat>)
    requires PageSize(page) && page < rest && |buf| > LastSlot(page) && k < Pages(rest, page)
    requires k == j * (LastSlot(page)) + i && i <= LastSlot(page)
    requires ListOf(Pages(rest, page), LastSlot(page), k) == j && SlotOf(Pages(rest, page), LastSlot(page), k) == i
    requires EntriesGood(word, list, page, Pages(rest, page), k) && ListsGood(word, list, page, j)
    requires Loaded(word, ListPage(word, list, LastSlot(page), j), LastSlot(page), i,
      Pages(LenLeft(rest, page, k), page), buf)
    requires i == LastSlot(page) ==> k + 1 == Pages(rest, page)
    ensures buf[i] == EntryAt(word, list, LastSlot(page), Pages(rest, page), k)
    ensures !Aligned(buf[i], page) ==> !ListGood(word, list, page, Pages(rest, page))
    ensures Aligned(buf[i], page) ==>
              Walked(word, list, rest, page, Place(k + 1, j, i + 1, LenLeft(rest, page, k + 1)), buf)
    ensures LenLeft(rest, page, k + 1) == LenLeft(rest, page, k) - Min(LenLeft(rest, page, k), page)
    ensures SegmentLen(rest, page, Pages(rest, page), k) == Min(LenLeft(rest, page, k), page)
  {
    hide LenLeft, Pages, SegmentLen, ListOf, SlotOf, ListPage, ListsGood, Digit, Quotient;
    LenLeftStep(rest, page, k);
    if k + 1 < Pages(rest, page) { LenLeftStep(rest, page, k + 1); }
  }

  lemma WalkEnds(word: Words, list: nat, rest: nat, page: nat, at: Place, buf: seq<nat>)
    requires Walked(word, list, rest, page, at, buf) && at.len == 0
    ensures PagesPositive(rest, page) && ListGood(word, list, page, Pages(rest, page)) && at.k == Pages(rest, page)
  {
    PagesBounds(rest, page);
  }

  lemma ListSegmentsNext(word: Words, list: nat, rest: nat, page: nat, k: nat)
    requires PageSize(page)
    ensures ListSegments(word, list, rest, page, 0) == []
    ensures ListSegments(word, list, rest, page, k + 1) ==
            ListSegments(word, list, rest, page, k)
            + [Segment(EntryAt(word, list, LastSlot(page), Pages(rest, page), k),
              SegmentLen(rest, page, Pages(rest, page), k))]
  {
  }

  // get_prp_page: `count` words of a list page.
  method GetPrpPage(word: Words, addr: nat, prpList: array<nat>, count: nat)
    requires count <= prpList.Length
    modifies prpList
    ensures forall s | 0 <= s < count :: prpList[s] == word(addr + 8 * s)
  {
    for s := 0 to count
      invariant forall t | 0 <= t < s :: prpList[t] == word(addr + 8 * t)
    {
      prpList[s] := word(addr + 8 * s);
    }
  }

  method LoadList(word: Words, addr: nat, len: nat, page: nat, prpList: array<nat>)
    requires PageSize(page) && prpList.Length > LastSlot(page)
    modifies prpList
    ensures Loaded(word, addr, LastSlot(page), 0, Pages(len, page), prpList[..])
  {
    var nents := (len + page - 1) / page;
    GetPrpPage(word, addr, prpList, Min(page / 8, nents));
  }

  /** decode_prp: succeeds exactly on a decodable data pointer, and then yields its segments. Sizes are those of the
      32-bit length field, so that rounding up to pages does not wrap. */
  method DecodePrp(word: Words, prp1: nat, prp2: nat, size: nat, page: nat, prpList: array<nat>)
    returns (ok: bool, ops: seq<Segment>)
    requires PageSize(page) && prpList.Length > LastSlot(page) && size + page <= U32
    modifies prpList
    ensures ok <==> Decodable(word, prp1, prp2, size, page)
    ensures ok ==> ops == Segments(word, prp1, prp2, size, page)
  {
    if prp1 == 0 {
      return false, [];
    }
    var transLen := Min(size, page - prp1 % page);
    ops := [Segment(prp1, transLen)];
    var len := size - transLen;
    if len > 0 {
      if prp2 == 0 {
        return false, ops;
      }
      if len > page {
        var more;
        ok, more := WalkList(word, prp2, len, page, prpList);
        return ok, ops + more;
      } else {
        if prp2 % page != 0 {
          return false, ops;
        }
        ops := ops + [Segment(prp2, len)];
      }
    }
    ok := true;
  }

  /** The list loop of decode_prp. */
  method WalkList(word: Words, list: nat, rest: nat, page: nat, prpList: array<nat>)
    returns (ok: bool, ops: seq<Segment>)
    requires PageSize(page) && prpList.Length > LastSlot(page) && page < rest
    modifies prpList
    ensures PagesPositive(rest, page)
    ensures ok <==> ListGood(word, list, page, Pages(rest, page))
    ensures ok ==> ops == ListSegments(word, list, rest, page, Pages(rest, page))
  {
    hide *;
    PageIsPositive(page);
    PagesBounds(rest, page);
    PositivePages(rest, page);
    ops := [];
    ListSegmentsNext(word, list, rest, page, 0);
    LoadList(word, list, rest, page, prpList);
    WalkStarts(word, list, rest, page, prpList[..]);
    ghost var at := Place(0, 0, 0, rest);
    var len, i := rest, 0;
    while len != 0
      invariant Walked(word, list, rest, page, at, prpList[..]) && at.len == len && at.i == i
      invariant ops == ListSegments(word, list, rest, page, at.k)
      decreases len
    {
      WalkedIn(word, list, rest, page, at, prpList[..]);
      var prpEnt := prpList[i];
      ghost var j := at.j;
      if i == page / 8 - 1 && len > page {
        WalkChains(word, list, rest, page, at, prpList[..]);
        if prpEnt == 0 || prpEnt % page != 0 {
          NotAligned(prpEnt, page);
          return false, ops;
        }
        IsAligned(prpEnt, page);
        i := 0;
        j := j + 1;
        LoadList(word, prpEnt, len, page, prpList);
        prpEnt := prpList[i];
      } else {
        WalkStays(word, list, rest, page, at, prpList[..]);
      }
      WalkTakes(word, list, rest, page, at.k, j, i, prpList[..]);
      if prpEnt == 0 || prpEnt % page != 0 {
        NotAligned(prpEnt, page);
        return false, ops;
      }
      IsAligned(prpEnt, page);
      MinIs(len, page);
      var transLen := if len < page then len else page;
      ListSegmentsNext(word, list, rest, page, at.k);
      ops := ops + [Segment(prpEnt, transLen)];
      len := len - transLen;
      i := i + 1;
      at := Place(at.k + 1, j, i, len);
    }
    WalkEnds(word, list, rest, page, at, prpList[..]);
    ok := true;
  }

  lemma PageIsPositive(page: nat)
    requires PageSize(page)
    ensures 0 < page
  {
  }

  lemma PositivePages(rest: nat, page: nat)
    requires 0 < page && 0 < Pages(rest, page)
    ensures PagesPositive(rest, page)
  {
  }

  lemma NotAligned(entry: nat, page: nat)
    requires 0 < page && (entry == 0 || entry % page != 0)
    ensures !Aligned(entry, page)
  {
  }

  lemma IsAligned(entry: nat, page: nat)
    requires 0 < page && entry != 0 && entry % page == 0
    ensures Aligned(entry, page)
  {
  }

  lemma MinIs(a: nat, b: nat)
    ensures Min(a, b) == if a < b then a else b
  {
  }

  lemma WalkedIn(word: Words, list: nat, rest: nat, page: nat, at: Place, buf: seq<nat>)
    requires Walked(word, list, rest, page, at, buf)
    ensures at.len > 0 ==>
              at.i < |buf| && at.i <= LastSlot(page) && at.k < Pages(rest, page) && at.k == at.j * LastSlot(page) + at.i
    ensures LastSlot(page) == page / 8 - 1 && 0 < page
    ensures at.len == LenLeft(rest, page, at.k)
    ensures EntriesGood(word, list, page, Pages(rest, page), at.k) && ListsGood(word, list, page, at.j)
    ensures at.len > 0 ==>
              Loaded(word, ListPage(word, list, LastSlot(page), at.j), LastSlot(page), at.i, Pages(at.len, page), buf)
    ensures at.len > 0 && at.i == LastSlot(page) && at.len <= page ==> at.k + 1 == Pages(rest, page)
  {
    hide EntriesGood, ListsGood, Loaded, ListPage, LenLeft, Pages;
    if at.len > 0 { LenLeftStep(rest, page, at.k); }
  }

  // ---- What the segments are ----------------------------------------------------------------------------

  function TotalLen(ops: seq<Segment>): nat { if ops == [] then 0 else TotalLen(ops[..|ops| - 1]) + ops[|ops| - 1].len }

  lemma TotalLenLast(ops: seq<Segment>, op: Segment)
    ensures TotalLen(ops + [op]) == TotalLen(ops) + op.len
  {
    assert (ops + [op])[..|ops|] == ops;
  }

  lemma {:induction false} TotalLenConcat(a: seq<Segment>, b: seq<Segment>)
    ensures TotalLen(a + b) == TotalLen(a) + TotalLen(b)
  {
    if b == [] {
      assert a + b == a;
    } else {
      var n := |b| - 1;
      assert a + b == (a + b[..n]) + [b[n]] && b == b[..n] + [b[n]];
      TotalLenLast(a + b[..n], b[n]);
      TotalLenConcat(a, b[..n]);
    }
  }

  lemma {:induction false} ListSegmentsTotal(word: Words, list: nat, rest: nat, page: nat, m: nat)
    requires PageSize(page) && 0 < rest && m <= Pages(rest, page)
    ensures TotalLen(ListSegments(word, list, rest, page, m)) + LenLeft(rest, page, m) == rest
  {
    if m > 0 {
      ListSegmentsTotal(word, list, rest, page, m - 1);
      ListSegmentsNext(word, list, rest, page, m - 1);
      LenLeftStep(rest, page, m - 1);
      TotalLenLast(ListSegments(word, list, rest, page, m - 1), ListSegments(word, list, rest, page, m)[m - 1]);
    }
  }

  /** The segments cover the transfer exactly. */
  lemma SegmentsCover(word: Words, prp1: nat, prp2: nat, size: nat, page: nat)
    requires PageSize(page)
    ensures TotalLen(Segments(word, prp1, prp2, size, page)) == size
  {
    hide ListSegments, LenLeft, Pages;
    var rest := size - First(prp1, size, page);
    var first := [Segment(prp1, First(prp1, size, page))];
    TotalLenLast([], first[0]);
    assert [] + first == first;
    if rest == 0 {
      assert Segments(word, prp1, prp2, size, page) == first;
    } else if rest <= page {
      TotalLenLast(first, Segment(prp2, rest));
    } else {
      LenLeftAtEnd(rest, page);
      ListSegmentsTotal(word, prp2, rest, page, Pages(rest, page));
      TotalLenConcat(first, ListSegments(word, prp2, rest, page, Pages(rest, page)));
    }
  }

  lemma LenLeftAtEnd(rest: nat, page: nat)
    requires 0 < page && 0 < rest
    ensures LenLeft(rest, page, Pages(rest, page)) == 0
  {
    PagesBounds(rest, page);
  }

  /** Every segment lies within one page; after the first each starts a page, and only the last may be short. */
  lemma SegmentsWithinPages(word: Words, prp1: nat, prp2: nat, size: nat, page: nat, k: nat)
    requires PageSize(page) && Decodable(word, prp1, prp2, size, page) && k < |Segments(word, prp1, prp2, size, page)|
    ensures var ops := Segments(word, prp1, prp2, size, page);
            && ops[k].addr % page + ops[k].len <= page
            && (0 < k ==> ops[k].addr != 0 && ops[k].addr % page == 0 && 0 < ops[k].len)
            && (0 < k && k + 1 < |ops| ==> ops[k].len == page)
            && (1 < |ops| ==> ops[0].len == page - prp1 % page)
  {
    hide EntryAt, LenLeft, Pages, SegmentLen;
    var rest := size - First(prp1, size, page);
    if rest > page && 0 < k {
      LenLeftStep(rest, page, k - 1);
      assert Aligned(EntryAt(word, prp2, LastSlot(page), Pages(rest, page), k - 1), page);
    }
  }

  /** The number of segments, and when they fit the 16 entries of a request's list. */
  lemma SegmentsCount(word: Words, prp1: nat, prp2: nat, size: nat, page: nat)
    requires PageSize(page)
    ensures 0 < size ==> |Segments(word, prp1, prp2, size, page)| == Pages(prp1 % page + size, page)
    ensures size == 0 ==> |Segments(word, prp1, prp2, size, page)| == 1
    ensures |Segments(word, prp1, prp2, size, page)| <= MDTS_PAGES
            <==> size == 0 || prp1 % page + size <= MDTS_PAGES * page
  {
    hide ListSegments, LenLeft;
    var off, rest := prp1 % page, size - First(prp1, size, page);
    var n := Pages(off + size, page);
    if 0 < size {
      PagesBounds(off + size, page);
      if rest > 0 {
        PagesBounds(rest, page);
        assert off + size == page + rest;
        assert (Pages(rest, page) + 1) * page == Pages(rest, page) * page + page;
        PagesOf(off + size, page, Pages(rest, page) + 1);
        if rest <= page { PagesOf(rest, page, 1); }
      } else {
        PagesOf(off + size, page, 1);
      }
      FitsIff(off + size, page, n);
    }
    SegmentsSize(word, prp1, prp2, size, page);
  }

  lemma FitsIff(len: nat, page: nat, n: nat)
    requires 0 < page && 0 < n && (n - 1) * page < len <= n * page
    ensures n <= MDTS_PAGES <==> len <= MDTS_PAGES * page
  {
    if n <= MDTS_PAGES { MulMono(n, MDTS_PAGES, page); } else { MulMono(MDTS_PAGES, n - 1, page); }
  }

  lemma SegmentsSize(word: Words, prp1: nat, prp2: nat, size: nat, page: nat)
    requires PageSize(page)
    ensures var rest := size - First(prp1, size, page);
            |Segments(word, prp1, prp2, size, page)| == 1 + if rest == 0 then 0 else if rest <= page then 1
              else Pages(rest, page)
  {
  }
}
