/** The buffer manager: one page buffer, handed to one request at a time, and the write-back cache entries that describe
    its content while a write owns it. */
module BufferManager {
  import opened EqualPages
  import opened WholeDevice
  import U = UnequalPages

  class Buffers {
    var inUse: bool
    const wbc: array<WbcPage>
    var num: nat

    constructor ()
      ensures !inUse && wbc.Length == WBC_PAGES && fresh(wbc) && NoneValid(wbc[..])
    {
      inUse, num := false, 0;
      wbc := new WbcPage[WBC_PAGES](_ => WbcPage(0, 0, false));
    }

    // The slots of the buffer go to the request's pages in order.
    predicate SlotsInOrder(slots: array<nat>, n: nat)
      reads slots
    {
      n <= slots.Length && forall i | 0 <= i < n :: slots[i] == i
    }

    /** get_read_io_buffer: refused while the buffer is in use. */
    method GetReadIoBuffer(nlbs: nat, slots: array<nat>) returns (ok: bool)
      requires nlbs < slots.Length
      modifies this`inUse, slots
      ensures ok <==> !old(inUse)
      ensures inUse
      ensures if ok then SlotsInOrder(slots, nlbs + 1) else slots[..] == old(slots[..])
    {
      if inUse {
        return false;
      }
      for i := 0 to nlbs + 1
        invariant forall k | 0 <= k < i :: slots[k] == k
      {
        slots[i] := i;
      }
      inUse := true;
      ok := true;
    }

    /** get_write_io_buffer: also enters the request's pages in the write-back cache. */
    method GetWriteIoBuffer(slba: nat, nlbs: nat, slots: array<nat>) returns (ok: bool)
      requires wbc.Length == WBC_PAGES && nlbs < WBC_PAGES && nlbs < slots.Length
      modifies this`inUse, this`num, wbc, slots
      ensures ok <==> !old(inUse)
      ensures inUse
      ensures ok ==>
                SlotsInOrder(slots, nlbs + 1) && num == nlbs + 1 && wbc[..] == FillWbc(old(wbc[..]), slba, nlbs + 1)
      ensures !ok ==> slots[..] == old(slots[..]) && num == old(num) && wbc[..] == old(wbc[..])
    {
      if inUse {
        return false;
      }
      var lpn := slba;
      var i := 0;
      while i <= nlbs
        invariant 0 <= i <= nlbs + 1 && lpn == slba + i
        invariant forall k | 0 <= k < i :: slots[k] == k
        invariant forall k | 0 <= k < WBC_PAGES :: wbc[k] == if k < i then WbcPage(slba + k, k, true) else old(wbc[k])
      {
        slots[i] := i;
        wbc[i] := WbcPage(lpn, slots[i], true);
        lpn := lpn + 1;
        i := i + 1;
      }
      num := i;
      inUse := true;
      ok := true;
    }

    method FreeReadIoBuffer()
      modifies this`inUse
      ensures !inUse
    {
      inUse := false;
    }

    /** free_wbc_buffer: the buffer is free again and no cache entry is left over for a later, shorter write. */
    method FreeWbcBuffer()
      modifies this`inUse, wbc
      ensures !inUse && wbc[..] == ClearWbc(old(wbc[..]))
    {
      inUse := false;
      for icache := 0 to wbc.Length
        invariant !inUse
        invariant forall k | 0 <= k < wbc.Length ::
                    wbc[k] == if k < icache then old(wbc[k]).(valid := false) else old(wbc[k])
      {
        wbc[icache] := wbc[icache].(valid := false);
      }
    }
  }

  /** A free cache filled by a write is flushed as exactly that write, however it was used before. */
  lemma FilledThenFlushed(wbc: seq<WbcPage>, slba: nat, nlbs: nat)
    requires |wbc| == WBC_PAGES && nlbs < WBC_PAGES
    ensures ToProgram(FillWbc(ClearWbc(wbc), slba, nlbs + 1), nlbs + 1) == Entries(slba, nlbs + 1)
  {
    FlushesTheWrite(FillWbc(ClearWbc(wbc), slba, nlbs + 1), slba, nlbs + 1, nlbs + 1);
  }

  lemma {:induction false} TakenAsFilled(wbc: seq<WbcPage>, slba: nat, n: nat, num: nat)
    requires HoldsWrite(wbc, slba, n) && n <= num
    ensures U.Taken(wbc, num) == U.RangePages(slba, n)
  {
    if wbc == [] {
      assert U.RangePages(slba, n) == [];
    } else {
      var k := |wbc| - 1;
      if k < n {
        TakenAsFilled(wbc[..k], slba, k, num);
        assert n == k + 1;
        U.RangePagesNext(slba, k);
      } else {
        TakenAsFilled(wbc[..k], slba, n, num);
      }
    }
  }

  /** The same with larger NAND pages; the batch then names no host page twice, so the flush loses nothing. */
  lemma FilledNamesPagesOnce(wbc: seq<WbcPage>, slba: nat, nlbs: nat)
    requires |wbc| == WBC_PAGES && nlbs < WBC_PAGES
    ensures U.Taken(FillWbc(ClearWbc(wbc), slba, nlbs + 1), nlbs + 1) == U.RangePages(slba, nlbs + 1)
    ensures U.DistinctLpns(U.Taken(FillWbc(ClearWbc(wbc), slba, nlbs + 1), nlbs + 1))
  {
    TakenAsFilled(FillWbc(ClearWbc(wbc), slba, nlbs + 1), slba, nlbs + 1, nlbs + 1);
    U.RangePagesDistinct(slba, nlbs + 1);
  }
}
