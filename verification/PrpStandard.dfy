/** The layout of a list of physical region page entries in section 4.3 of NVM Express 1.1, and when the decoder reads
    it: the standard lets the list begin inside a memory page, the decoder always counts a whole page of slots. */
module PrpStandard {
  import opened Geometry
  import opened PrpList

  // ---- The standard's layout --------------------------------------------------------------------------

  // Entries from the list pointer to the end of its memory page.
  function SlotsFrom(list: nat, page: nat): nat
    requires PageSize(page)
  {
    (page - list % page) / 8
  }

  /** Data entry k of n, from a list with this many slots left in its memory page: when they do not suffice, the last
      of them points to the next list page, which starts on a page boundary. */
  function StandardEntry(word: Words, list: nat, slots: nat, page: nat, n: nat, k: nat): nat
    requires PageSize(page) && 0 < slots && k < n
    decreases n, if slots == 1 then 1 else 0
  {
    if n <= slots || k < slots - 1 then word(list + 8 * k)
    else StandardEntry(word, word(list + 8 * (slots - 1)), page / 8, page, n - (slots - 1), k - (slots - 1))
  }

  /** Every data entry and every pointer to a further list page can be followed. */
  predicate StandardGood(word: Words, list: nat, slots: nat, page: nat, n: nat)
    requires PageSize(page) && 0 < slots
    decreases n, if slots == 1 then 1 else 0
  {
    if n <= slots then FirstAligned(word, list, page, n)
    else
      && FirstAligned(word, list, page, slots)
      && StandardGood(word, word(list + 8 * (slots - 1)), page / 8, page, n - (slots - 1))
  }

  predicate FirstAligned(word: Words, list: nat, page: nat, m: nat)
    requires 0 < page
  {
    forall k | 0 <= k < m :: SlotAligned(word, list, page, k)
  }

  predicate SlotAligned(word: Words, list: nat, page: nat, k: nat)
    requires 0 < page
  {
    Aligned(word(list + 8 * k), page)
  }

  predicate StandardDecodable(word: Words, prp1: nat, prp2: nat, size: nat, page: nat)
    requires PageSize(page) && 0 < SlotsFrom(prp2, page)
  {
    var rest := size - First(prp1, size, page);
    && prp1 != 0
    && (rest > 0 ==> prp2 != 0)
    && (0 < rest <= page ==> prp2 % page == 0)
    && (rest > page ==> StandardGood(word, prp2, SlotsFrom(prp2, page), page, Pages(rest, page)))
  }

  function StandardSegments(word: Words, prp1: nat, prp2: nat, size: nat, page: nat): seq<Segment>
    requires PageSize(page) && 0 < SlotsFrom(prp2, page)
  {
    var rest := size - First(prp1, size, page);
    [Segment(prp1, First(prp1, size, page))]
    + if rest == 0 then []
      else if rest <= page then [Segment(prp2, rest)]
      else StandardListSegments(word, prp2, rest, page)
  }

  function StandardListSegments(word: Words, list: nat, rest: nat, page: nat): seq<Segment>
    requires PageSize(page) && 0 < SlotsFrom(list, page)
  {
    var n := Pages(rest, page);
    seq(n, k requires 0 <= k < n =>
      Segment(StandardEntry(word, list, SlotsFrom(list, page), page, n, k), SegmentLen(rest, page, n, k)))
  }

  // ---- The decoder's walk, one list page at a time --------------------------------------------------------

  lemma {:induction false} ListPageShift(word: Words, list: nat, d: nat, j: nat)
    ensures ListPage(word, list, d, j + 1) == ListPage(word, word(list + 8 * d), d, j)
  {
    if j == 0 {
      assert ListPage(word, list, d, 1) == word(ListPage(word, list, d, 0) + 8 * d);
    } else {
      ListPageShift(word, list, d, j - 1);
    }
  }

  lemma QuotientShift(k: nat, d: nat)
    requires 0 < d <= k
    ensures Quotient(k, d) == Quotient(k - d, d) + 1 && Digit(k, d) == Digit(k - d, d)
  {
    var q, r := Quotient(k - d, d), Digit(k - d, d);
    assert (q + 1) * d == q * d + d;
    assert k == (q + 1) * d + r;
    DivMod(q + 1, r, d);
  }

  lemma SmallQuotient(k: nat, d: nat)
    requires k < d
    ensures Quotient(k, d) == 0 && Digit(k, d) == k
  {
    DivMod(0, k, d);
  }

  // Entries in the first list page.
  lemma EntryInFirst(word: Words, list: nat, d: nat, n: nat, k: nat)
    requires 0 < d && k < n && (k < d || n == k + 1 == d + 1)
    ensures EntryAt(word, list, d, n, k) == word(list + 8 * k)
    ensures ListOf(n, d, k) == 0
  {
    if k < d {
      SmallQuotient(k, d);
    } else {
      DivMod(1, 0, d);
    }
  }

  // Entries beyond the first list page are those of the shorter list that the pointer leads to.
  lemma EntryShift(word: Words, list: nat, d: nat, n: nat, k: nat)
    requires 0 < d <= k < n && d + 1 < n
    ensures EntryAt(word, list, d, n, k) == EntryAt(word, word(list + 8 * d), d, n - d, k - d)
    ensures ListOf(n, d, k) == ListOf(n - d, d, k - d) + 1
  {
    QuotientShift(k, d);
    SmallQuotient(0, d);
    if k - d > 0 && k == n - 1 && Digit(k, d) == 0 {
      assert k - d == Quotient(k - d, d) * d;
    }
    ListPageShift(word, list, d, ListOf(n - d, d, k - d));
  }

  /** From a page boundary on, the decoder reads the entries of the standard's layout. */
  lemma {:induction false} EntryIsStandard(word: Words, list: nat, page: nat, n: nat, k: nat)
    requires PageSize(page) && k < n
    ensures EntryAt(word, list, LastSlot(page), n, k) == StandardEntry(word, list, page / 8, page, n, k)
    decreases n
  {
    var d := LastSlot(page);
    if n <= d + 1 || k < d {
      EntryInFirst(word, list, d, n, k);
    } else {
      EntryShift(word, list, d, n, k);
      EntryIsStandard(word, word(list + 8 * d), page, n - d, k - d);
    }
  }

  // The decoder's condition, split into the first list page and the rest.
  lemma GoodShort(word: Words, list: nat, page: nat, n: nat)
    requires PageSize(page) && 0 < n <= page / 8
    ensures ListGood(word, list, page, n) <==> FirstAligned(word, list, page, n)
  {
    var d := LastSlot(page);
    forall k | 0 <= k < n
      ensures EntryAt(word, list, d, n, k) == word(list + 8 * k) && ListOf(n, d, k) == 0
      ensures Aligned(EntryAt(word, list, d, n, k), page) <==> SlotAligned(word, list, page, k)
    {
      EntryInFirst(word, list, d, n, k);
    }
  }

  lemma GoodForward(word: Words, list: nat, page: nat, n: nat)
    requires PageSize(page) && page / 8 < n && ListGood(word, list, page, n)
    ensures FirstAligned(word, list, page, page / 8)
    ensures ListGood(word, word(list + 8 * LastSlot(page)), page, n - LastSlot(page))
  {
    hide ListPage, SlotOf, ListOf, Aligned;
    var d, next := LastSlot(page), word(list + 8 * LastSlot(page));
    EntryShift(word, list, d, n, n - 1);
    FirstPointer(word, list, d);
    forall k | 0 <= k < page / 8 ensures SlotAligned(word, list, page, k) {
      if k < d {
        EntryInFirst(word, list, d, n, k);
        assert Aligned(EntryAt(word, list, d, n, k), page);
      } else {
        assert Aligned(ListPage(word, list, d, 1), page);
      }
    }
    var m := n - d;
    forall k | 0 <= k < m ensures Aligned(EntryAt(word, next, d, m, k), page) {
      EntryShift(word, list, d, n, k + d);
      assert Aligned(EntryAt(word, list, d, n, k + d), page);
    }
    forall j | 1 <= j <= ListOf(m, d, m - 1) ensures Aligned(ListPage(word, next, d, j), page) {
      ListPageShift(word, list, d, j);
      assert Aligned(ListPage(word, list, d, j + 1), page);
    }
  }

  lemma GoodBackward(word: Words, list: nat, page: nat, n: nat)
    requires PageSize(page) && page / 8 < n && FirstAligned(word, list, page, page / 8)
    requires ListGood(word, word(list + 8 * LastSlot(page)), page, n - LastSlot(page))
    ensures ListGood(word, list, page, n)
  {
    hide ListPage, SlotOf, ListOf, Aligned;
    var d, next := LastSlot(page), word(list + 8 * LastSlot(page));
    EntryShift(word, list, d, n, n - 1);
    FirstPointer(word, list, d);
    forall k | 0 <= k < n ensures Aligned(EntryAt(word, list, d, n, k), page) {
      if k < d {
        EntryInFirst(word, list, d, n, k);
        assert SlotAligned(word, list, page, k);
      } else {
        EntryShift(word, list, d, n, k);
        assert Aligned(EntryAt(word, next, d, n - d, k - d), page);
      }
    }
    forall j | 1 <= j <= ListOf(n, d, n - 1) ensures Aligned(ListPage(word, list, d, j), page) {
      if j == 1 {
        assert SlotAligned(word, list, page, d);
      } else {
        ListPageShift(word, list, d, j - 1);
        assert Aligned(ListPage(word, next, d, j - 1), page);
      }
    }
  }

  lemma FirstPointer(word: Words, list: nat, d: nat)
    ensures ListPage(word, list, d, 1) == word(list + 8 * d)
  {
    assert ListPage(word, list, d, 0) == list;
  }

  /** From a page boundary on, the decoder's checks are those of the standard's layout. */
  lemma {:induction false} GoodIsStandard(word: Words, list: nat, page: nat, n: nat)
    requires PageSize(page) && 0 < n
    ensures ListGood(word, list, page, n) <==> StandardGood(word, list, page / 8, page, n)
    decreases n
  {
    hide ListGood, FirstAligned;
    var d := LastSlot(page);
    if n <= page / 8 {
      GoodShort(word, list, page, n);
    } else {
      GoodIsStandard(word, word(list + 8 * d), page, n - d);
      if ListGood(word, list, page, n) { GoodForward(word, list, page, n); }
      if StandardGood(word, list, page / 8, page, n) { GoodBackward(word, list, page, n); }
    }
  }

  // ---- When the decoder follows the standard ---------------------------------------------------------------

  /** No list is used, or it begins on a page boundary, or it ends in the memory page in which it begins. */
  predicate ReadsStandard(prp1: nat, prp2: nat, size: nat, page: nat)
    requires PageSize(page)
  {
    var rest := size - First(prp1, size, page);
    rest <= page || prp2 % page == 0 || Pages(rest, page) <= SlotsFrom(prp2, page)
  }

  lemma SlotsBound(list: nat, page: nat)
    requires PageSize(page) && list % 8 == 0
    ensures 0 < SlotsFrom(list, page) <= page / 8 && SlotsFrom(list, page) * 8 == page - list % page
    ensures SlotsFrom(list, page) == page / 8 <==> list % page == 0
  {
    var m := page / 8;
    assert page == 8 * m;
    ModOfMultiple(list, m);
  }

  lemma ModOfMultiple(x: nat, m: nat)
    requires 0 < m && x % 8 == 0
    ensures x % (8 * m) % 8 == 0
  {
    var q := x / (8 * m);
    assert x == 8 * (m * q) + x % (8 * m) by { MulSwap(m, q); }
  }

  lemma MulSwap(m: nat, q: nat)
    ensures 8 * m * q == 8 * (m * q)
  {
  }

  lemma ListIsStandard(word: Words, list: nat, page: nat, n: nat)
    requires PageSize(page) && 0 < n && list % 8 == 0 && (list % page == 0 || n <= SlotsFrom(list, page))
    ensures 0 < SlotsFrom(list, page)
    ensures ListGood(word, list, page, n) <==> StandardGood(word, list, SlotsFrom(list, page), page, n)
    ensures forall k | 0 <= k < n ::
              EntryAt(word, list, LastSlot(page), n, k) == StandardEntry(word, list, SlotsFrom(list, page), page, n, k)
  {
    hide EntryAt, ListGood;
    SlotsBound(list, page);
    if list % page == 0 {
      GoodIsStandard(word, list, page, n);
      forall k | 0 <= k < n
        ensures EntryAt(word, list, LastSlot(page), n, k) == StandardEntry(word, list, page / 8, page, n, k)
      {
        EntryIsStandard(word, list, page, n, k);
      }
    } else {
      GoodShort(word, list, page, n);
      forall k | 0 <= k < n ensures EntryAt(word, list, LastSlot(page), n, k) == word(list + 8 * k) {
        EntryInFirst(word, list, LastSlot(page), n, k);
      }
    }
  }

  /** Under that condition the decoder accepts exactly the data pointers that are well formed by the standard, and
      yields the standard's segments. */
  lemma DecodesAsStandard(word: Words, prp1: nat, prp2: nat, size: nat, page: nat)
    requires PageSize(page) && prp2 % 8 == 0 && ReadsStandard(prp1, prp2, size, page)
    ensures 0 < SlotsFrom(prp2, page)
    ensures Decodable(word, prp1, prp2, size, page) <==> StandardDecodable(word, prp1, prp2, size, page)
    ensures Segments(word, prp1, prp2, size, page) == StandardSegments(word, prp1, prp2, size, page)
  {
    hide EntryAt, StandardEntry, ListGood, StandardGood, SegmentLen, SlotsFrom, Pages;
    SlotsBound(prp2, page);
    var rest := size - First(prp1, size, page);
    if rest > page {
      PagesBounds(rest, page);
      ListIsStandard(word, prp2, page, Pages(rest, page));
      assert ListSegments(word, prp2, rest, page, Pages(rest, page)) == StandardListSegments(word, prp2, rest, page);
    }
  }

  /** Otherwise it takes the pointer to the next list page for a data page, and data is moved to or from the list
      itself. Host memory in which the word at the second page is its third page and all other words are the second
      page: the two readings differ, though the decoder accepts the pointer. */
  function Misread(page: nat): Words { a => if a == page then 2 * page else page }

  lemma MisreadDiffers(prp1: nat, prp2: nat, size: nat, page: nat)
    requires PageSize(page) && prp1 != 0 && prp2 % 8 == 0 && !ReadsStandard(prp1, prp2, size, page)
    ensures 0 < SlotsFrom(prp2, page)
    ensures Decodable(Misread(page), prp1, prp2, size, page)
    ensures Segments(Misread(page), prp1, prp2, size, page) != StandardSegments(Misread(page), prp1, prp2, size, page)
  {
    hide *;
    PageIsPositive(page);
    var rest := size - First(prp1, size, page);
    ListBeginsInside(prp1, prp2, size, page);
    MisreadGood(prp2, page, Pages(rest, page));
    MisreadList(prp2, rest, page, Pages(rest, page));
    LongTransfer(Misread(page), prp1, prp2, size, page);
    HeadThenDiffers(Segment(prp1, First(prp1, size, page)),
      ListSegments(Misread(page), prp2, rest, page, Pages(rest, page)),
      StandardListSegments(Misread(page), prp2, rest, page));
  }

  lemma ListBeginsInside(prp1: nat, prp2: nat, size: nat, page: nat)
    requires PageSize(page) && prp2 % 8 == 0 && !ReadsStandard(prp1, prp2, size, page)
    ensures 0 < page && page < size - First(prp1, size, page) && prp2 != 0 && prp2 % page != 0
    ensures 0 < SlotsFrom(prp2, page) < Pages(size - First(prp1, size, page), page)
  {
    hide Pages, SlotsFrom, First;
    SlotsBound(prp2, page);
  }

  // A transfer that needs a list.
  lemma LongTransfer(word: Words, prp1: nat, prp2: nat, size: nat, page: nat)
    requires PageSize(page) && 0 < SlotsFrom(prp2, page) && size - First(prp1, size, page) > page
    requires 0 < Pages(size - First(prp1, size, page), page)
    ensures var rest := size - First(prp1, size, page);
            var first := [Segment(prp1, First(prp1, size, page))];
            && (Decodable(word, prp1, prp2, size, page)
                <==> prp1 != 0 && prp2 != 0 && ListGood(word, prp2, page, Pages(rest, page)))
            && Segments(word, prp1, prp2, size, page)
               == first + ListSegments(word, prp2, rest, page, Pages(rest, page))
            && StandardSegments(word, prp1, prp2, size, page) == first + StandardListSegments(word, prp2, rest, page)
  {
    hide ListGood, ListSegments, StandardListSegments, First, Pages, SlotsFrom;
  }

  lemma HeadThenDiffers(head: Segment, a: seq<Segment>, b: seq<Segment>)
    requires a != b
    ensures [head] + a != [head] + b
  {
    assert ([head] + a)[1..] == a && ([head] + b)[1..] == b;
  }

  lemma MisreadList(list: nat, rest: nat, page: nat, n: nat)
    requires PageSize(page) && list % 8 == 0 && 0 < SlotsFrom(list, page) < n && n == Pages(rest, page)
    requires list % page != 0
    ensures ListSegments(Misread(page), list, rest, page, n) != StandardListSegments(Misread(page), list, rest, page)
  {
    hide ListOf, SlotOf, ListPage, EntryAt, StandardEntry, Pages, SegmentLen, Misread;
    var k := SlotsFrom(list, page) - 1;
    MisreadEntry(list, page, n);
    assert ListSegments(Misread(page), list, rest, page, n)[k].addr
        == EntryAt(Misread(page), list, LastSlot(page), n, k);
    assert StandardListSegments(Misread(page), list, rest, page)[k].addr
        == StandardEntry(Misread(page), list, SlotsFrom(list, page), page, n, k);
  }

  lemma MisreadEntry(list: nat, page: nat, n: nat)
    requires PageSize(page) && list % 8 == 0 && list % page != 0 && 0 < SlotsFrom(list, page) < n
    ensures var k := SlotsFrom(list, page) - 1;
            EntryAt(Misread(page), list, LastSlot(page), n, k)
            != StandardEntry(Misread(page), list, SlotsFrom(list, page), page, n, k)
  {
    hide ListOf, SlotOf, ListPage, EntryAt, StandardEntry, SlotsFrom;
    var slots := SlotsFrom(list, page);
    SlotsBound(list, page);
    LastSlotOfPage(list, page, slots);
    EntryInFirst(Misread(page), list, LastSlot(page), n, slots - 1);
    StandardFollowsPointer(Misread(page), list, slots, page, n);
  }

  lemma MisreadGood(list: nat, page: nat, n: nat)
    requires PageSize(page) && 0 < n
    ensures ListGood(Misread(page), list, page, n)
  {
    hide ListOf, SlotOf;
    forall a: nat ensures Aligned(Misread(page)(a), page) {
      DivMod(2, 0, page);
      DivMod(1, 0, page);
    }
  }

  // The last slot of a memory page is not the first of another.
  lemma LastSlotOfPage(list: nat, page: nat, slots: nat)
    requires PageSize(page) && list % page != 0 && 0 < slots && slots * 8 == page - list % page
    ensures list + 8 * (slots - 1) != page
  {
    hide *;
    SmallestPage(page);
    var start := PageStart(list, page);
  }

  lemma SmallestPage(page: nat)
    requires PageSize(page)
    ensures 16 <= page
  {
  }

  // The memory page of an address starts at 0 or at least a page further on.
  lemma PageStart(list: nat, page: nat) returns (start: nat)
    requires 0 < page
    ensures list == start + list % page && (start == 0 || page <= start)
  {
    var q := list / page;
    start := q * page;
    assert list == q * page + list % page;
    if 0 < q { MulMono(1, q, page); }
  }

  lemma StandardFollowsPointer(word: Words, list: nat, slots: nat, page: nat, n: nat)
    requires PageSize(page) && 0 < slots < n
    ensures StandardEntry(word, list, slots, page, n, slots - 1) == word(word(list + 8 * (slots - 1)))
  {
    var next := word(list + 8 * (slots - 1));
    assert StandardEntry(word, next, page / 8, page, n - (slots - 1), 0) == word(next + 8 * 0);
  }

  /** Exactly when: for a given pointer pair and size, the decoder yields the standard's segments in every host memory
      in which it succeeds if and only if no list is used, the list begins on a page boundary, or it ends in the
      memory page in which it begins. */
  lemma DecodesAsStandardIff(prp1: nat, prp2: nat, size: nat, page: nat)
    requires PageSize(page) && prp1 != 0 && prp2 % 8 == 0
    ensures 0 < SlotsFrom(prp2, page)
    ensures (forall word: Words | Decodable(word, prp1, prp2, size, page) ::
               Segments(word, prp1, prp2, size, page) == StandardSegments(word, prp1, prp2, size, page))
            <==> ReadsStandard(prp1, prp2, size, page)
  {
    hide Segments, StandardSegments, Decodable, ReadsStandard, SlotsFrom;
    SlotsBound(prp2, page);
    if ReadsStandard(prp1, prp2, size, page) {
      forall word: Words
        ensures Segments(word, prp1, prp2, size, page) == StandardSegments(word, prp1, prp2, size, page)
      {
        DecodesAsStandard(word, prp1, prp2, size, page);
      }
    } else {
      MisreadDiffers(prp1, prp2, size, page);
    }
  }

  // What the decoder and the standard read in that case.
  lemma InsideDecoded(word: Words, list: nat)
    requires word(8176) == 40960 && word(8184) == list && word(8192) == 81920 && Aligned(list, 4096)
    ensures Pages(12288, 4096) == 3 && ListGood(word, 8176, 4096, 3)
    ensures EntryAt(word, 8176, 511, 3, 0) == 40960 && EntryAt(word, 8176, 511, 3, 1) == list
    ensures EntryAt(word, 8176, 511, 3, 2) == 81920
  {
    hide EntryAt, ListGood;
    EntryInFirst(word, 8176, 511, 3, 0);
    EntryInFirst(word, 8176, 511, 3, 1);
    EntryInFirst(word, 8176, 511, 3, 2);
    GoodShort(word, 8176, 4096, 3);
  }

  lemma InsideStandard(word: Words, list: nat)
    requires word(8176) == 40960 && word(8184) == list && word(list) == 122880 && word(list + 8) == 126976
    ensures StandardEntry(word, 8176, 2, 4096, 3, 0) == 40960 && StandardEntry(word, 8176, 2, 4096, 3, 1) == 122880
    ensures StandardEntry(word, 8176, 2, 4096, 3, 2) == 126976
  {
    assert StandardEntry(word, list, 512, 4096, 2, 0) == word(list + 8 * 0);
    assert StandardEntry(word, list, 512, 4096, 2, 1) == word(list + 8 * 1);
    assert StandardEntry(word, 8176, 2, 4096, 3, 0) == word(8176 + 8 * 0);
  }

  /** A list pointer two slots before the end of a 4 KB page: the decoder takes the pointer in the second slot for a
      data page. */
  lemma ListInsidePage(word: Words, list: nat)
    requires word(8176) == 40960 && word(8184) == list && word(8192) == 81920 && word(list) == 122880
    requires word(list + 8) == 126976 && Aligned(list, 4096)
    ensures SlotsFrom(8176, 4096) == 2 && Decodable(word, 409600, 8176, 16384, 4096)
    ensures Segments(word, 409600, 8176, 16384, 4096) ==
            [Segment(409600, 4096), Segment(40960, 4096), Segment(list, 4096), Segment(81920, 4096)]
    ensures StandardSegments(word, 409600, 8176, 16384, 4096) ==
            [Segment(409600, 4096), Segment(40960, 4096), Segment(122880, 4096), Segment(126976, 4096)]
  {
    hide EntryAt, ListGood, StandardEntry, Pages;
    InsideDecoded(word, list);
    InsideStandard(word, list);
  }
}
