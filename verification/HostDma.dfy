/** Moving a request's data between host memory and the device's RAM, one segment after another. */
module HostDma {
  import opened PrpList

  // ---- The host's logical buffer ----------------------------------------------------------------------

  predicate Backed<B>(host: map<nat, B>, ops: seq<Segment>) {
    forall i | 0 <= i < |ops| :: InHost(host, ops[i])
  }

  predicate InHost<B>(host: map<nat, B>, s: Segment) { forall a | s.addr <= a < s.addr + s.len :: a in host }

  function BytesOf<B>(host: map<nat, B>, s: Segment): (r: seq<B>)
    requires InHost(host, s)
    ensures |r| == s.len
  {
    seq(s.len, i requires 0 <= i < s.len => host[s.addr + i])
  }

  function Put<B>(host: map<nat, B>, s: Segment, data: seq<B>): (h: map<nat, B>)
    requires |data| == s.len
    ensures h.Keys == host.Keys
  {
    map a | a in host :: if s.addr <= a < s.addr + s.len then data[a - s.addr] else host[a]
  }

  /** The bytes the segments describe, as one buffer. */
  function Gather<B>(host: map<nat, B>, ops: seq<Segment>): (r: seq<B>)
    requires Backed(host, ops)
    ensures |r| == TotalLen(ops)
  {
    if ops == [] then [] else Gather(host, ops[..|ops| - 1]) + BytesOf(host, ops[|ops| - 1])
  }

  /** Host memory after a buffer has been spread over the segments. */
  function Scatter<B>(host: map<nat, B>, ops: seq<Segment>, data: seq<B>): (h: map<nat, B>)
    requires |data| == TotalLen(ops)
    ensures h.Keys == host.Keys
  {
    if ops == [] then host
    else
      var n := |ops| - 1;
      var t := TotalLen(ops[..n]);
      Put(Scatter(host, ops[..n], data[..t]), ops[n], data[t..])
  }

  lemma BackedKeys<B>(host: map<nat, B>, h: map<nat, B>, ops: seq<Segment>)
    requires Backed(host, ops) && h.Keys == host.Keys
    ensures Backed(h, ops)
  {
    forall i | 0 <= i < |ops| ensures InHost(h, ops[i]) {
      assert InHost(host, ops[i]);
    }
  }

  lemma PutSame<B>(host: map<nat, B>, s: Segment)
    requires InHost(host, s)
    ensures Put(host, s, BytesOf(host, s)) == host
  {
  }

  /** Reading through a data pointer and writing the result back through the same one leaves host memory unchanged,
      even where segments overlap. */
  lemma {:induction false} ReadThenWrite<B>(host: map<nat, B>, ops: seq<Segment>)
    requires Backed(host, ops)
    ensures Scatter(host, ops, Gather(host, ops)) == host
  {
    if ops != [] {
      var n := |ops| - 1;
      ReadThenWrite(host, ops[..n]);
      var t := TotalLen(ops[..n]);
      assert Gather(host, ops)[..t] == Gather(host, ops[..n]);
      assert Gather(host, ops)[t..] == BytesOf(host, ops[n]);
      PutSame(host, ops[n]);
    }
  }

  predicate Apart(a: Segment, b: Segment) { a.addr + a.len <= b.addr || b.addr + b.len <= a.addr }

  predicate AllApart(ops: seq<Segment>) { forall i, j | 0 <= i < j < |ops| :: Apart(ops[i], ops[j]) }

  lemma {:induction false} GatherElsewhere<B>(host: map<nat, B>, ops: seq<Segment>, s: Segment, data: seq<B>)
    requires Backed(host, ops) && |data| == s.len && forall i | 0 <= i < |ops| :: Apart(ops[i], s)
    ensures Backed(Put(host, s, data), ops) && Gather(Put(host, s, data), ops) == Gather(host, ops)
  {
    BackedKeys(host, Put(host, s, data), ops);
    if ops != [] {
      var n := |ops| - 1;
      GatherElsewhere(host, ops[..n], s, data);
      assert BytesOf(Put(host, s, data), ops[n]) == BytesOf(host, ops[n]);
    }
  }

  lemma PutThenGet<B>(host: map<nat, B>, s: Segment, data: seq<B>)
    requires InHost(host, s) && |data| == s.len
    ensures InHost(Put(host, s, data), s) && BytesOf(Put(host, s, data), s) == data
  {
  }

  /** What is written through segments that do not overlap is read back through them. */
  lemma {:induction false} WriteThenRead<B>(host: map<nat, B>, ops: seq<Segment>, data: seq<B>)
    requires Backed(host, ops) && |data| == TotalLen(ops) && AllApart(ops)
    ensures Backed(Scatter(host, ops, data), ops) && Gather(Scatter(host, ops, data), ops) == data
  {
    hide Put, BytesOf, InHost;
    BackedKeys(host, Scatter(host, ops, data), ops);
    if ops != [] {
      var n := |ops| - 1;
      var t := TotalLen(ops[..n]);
      var before := Scatter(host, ops[..n], data[..t]);
      WriteThenRead(host, ops[..n], data[..t]);
      GatherElsewhere(before, ops[..n], ops[n], data[t..]);
      BackedKeys(host, before, ops);
      PutThenGet(before, ops[n], data[t..]);
      assert data == data[..t] + data[t..];
    }
  }

  predicate Within(s: Segment, a: nat) { s.addr <= a < s.addr + s.len }

  /** Byte j of segment i is byte j of the buffer after those of the segments before. */
  lemma {:induction false} GatherAt<B>(host: map<nat, B>, ops: seq<Segment>, i: nat, j: nat)
    requires Backed(host, ops) && i < |ops| && j < ops[i].len
    ensures InHost(host, ops[i]) && TotalLen(ops[..i]) + j < TotalLen(ops)
    ensures Gather(host, ops)[TotalLen(ops[..i]) + j] == host[ops[i].addr + j]
  {
    var n := |ops| - 1;
    if i < n {
      GatherAt(host, ops[..n], i, j);
      assert ops[..n][..i] == ops[..i];
    }
  }

  /** Written through segments that do not overlap, every byte of the buffer lands at its place, and host memory outside
      the segments stays as it was. */
  lemma ScatterAt<B>(host: map<nat, B>, ops: seq<Segment>, data: seq<B>, i: nat, j: nat)
    requires Backed(host, ops) && |data| == TotalLen(ops) && AllApart(ops) && i < |ops| && j < ops[i].len
    ensures ops[i].addr + j in host && TotalLen(ops[..i]) + j < |data|
    ensures Scatter(host, ops, data)[ops[i].addr + j] == data[TotalLen(ops[..i]) + j]
    ensures forall a | a in host && (forall k | 0 <= k < |ops| :: !Within(ops[k], a)) ::
              Scatter(host, ops, data)[a] == host[a]
  {
    WriteThenRead(host, ops, data);
    GatherAt(Scatter(host, ops, data), ops, i, j);
    ScatterElsewhere(host, ops, data);
  }

  lemma {:induction false} ScatterElsewhere<B>(host: map<nat, B>, ops: seq<Segment>, data: seq<B>)
    requires |data| == TotalLen(ops)
    ensures forall a | a in host && (forall k | 0 <= k < |ops| :: !Within(ops[k], a)) ::
              Scatter(host, ops, data)[a] == host[a]
  {
    if ops != [] {
      var n := |ops| - 1;
      ScatterElsewhere(host, ops[..n], data[..TotalLen(ops[..n])]);
      forall a | a in host && (forall k | 0 <= k < |ops| :: !Within(ops[k], a))
        ensures Scatter(host, ops, data)[a] == host[a]
      {
        forall k | 0 <= k < n ensures !Within(ops[..n][k], a) { assert ops[..n][k] == ops[k]; }
      }
    }
  }

  /** A decoded data pointer describes a buffer of exactly the size of the transfer. */
  lemma DecodedBufferSize<B>(host: map<nat, B>, word: Words, prp1: nat, prp2: nat, size: nat, page: nat)
    requires PageSize(page) && Backed(host, Segments(word, prp1, prp2, size, page))
    ensures |Gather(host, Segments(word, prp1, prp2, size, page))| == size
  {
    SegmentsCover(word, prp1, prp2, size, page);
  }

  // ---- Partial transfers ------------------------------------------------------------------------------

  /** The segments cut off after r bytes. */
  function Trim(ops: seq<Segment>, r: nat): seq<Segment>
    decreases |ops|
  {
    if ops == [] || r == 0 then []
    else [Segment(ops[0].addr, Min(ops[0].len, r))] + Trim(ops[1..], r - Min(ops[0].len, r))
  }

  lemma TotalLenFirst(op: Segment, ops: seq<Segment>)
    ensures TotalLen([op] + ops) == op.len + TotalLen(ops)
  {
    TotalLenConcat([op], ops);
    TotalLenLast([], op);
    assert [] + [op] == [op];
  }

  lemma BackedParts<B>(host: map<nat, B>, a: seq<Segment>, b: seq<Segment>)
    ensures Backed(host, a + b) <==> Backed(host, a) && Backed(host, b)
  {
    hide InHost;
    if Backed(host, a + b) {
      forall i | 0 <= i < |a| ensures InHost(host, a[i]) { assert a[i] == (a + b)[i]; }
      forall i | 0 <= i < |b| ensures InHost(host, b[i]) { assert b[i] == (a + b)[|a| + i]; }
    }
  }

  lemma {:induction false} GatherConcat<B>(host: map<nat, B>, a: seq<Segment>, b: seq<Segment>)
    requires Backed(host, a) && Backed(host, b)
    ensures Backed(host, a + b) && Gather(host, a + b) == Gather(host, a) + Gather(host, b)
  {
    hide InHost, BytesOf, TotalLen;
    BackedParts(host, a, b);
    if b == [] {
      assert a + b == a;
    } else {
      var n := |b| - 1;
      GatherConcat(host, a, b[..n]);
      assert (a + b)[..|a + b| - 1] == a + b[..n];
    }
  }

  lemma GatherFirst<B>(host: map<nat, B>, op: Segment, ops: seq<Segment>)
    requires Backed(host, [op] + ops)
    ensures InHost(host, op) && Backed(host, ops) && Gather(host, [op] + ops) == BytesOf(host, op) + Gather(host, ops)
  {
    hide InHost, BytesOf, TotalLen;
    BackedParts(host, [op], ops);
    GatherConcat(host, [op], ops);
    assert [op][0] == op && [op][..0] == [];
  }

  /** A partial transfer moves the first bytes of the buffer, as many as it was asked for. */
  lemma {:induction false} TrimIsPrefix<B>(host: map<nat, B>, ops: seq<Segment>, r: nat)
    requires Backed(host, ops)
    ensures TotalLen(Trim(ops, r)) == Min(r, TotalLen(ops))
    ensures Backed(host, Trim(ops, r)) && Gather(host, Trim(ops, r)) == Gather(host, ops)[..Min(r, TotalLen(ops))]
    decreases |ops|
  {
    hide Gather, BytesOf, InHost, TotalLen;
    TotalLenNothing();
    GatherNothing(host);
    if ops != [] && r != 0 {
      var m := Min(ops[0].len, r);
      var head, rest := Segment(ops[0].addr, m), Trim(ops[1..], r - m);
      assert ops == [ops[0]] + ops[1..];
      TotalLenFirst(ops[0], ops[1..]);
      GatherFirst(host, ops[0], ops[1..]);
      TrimIsPrefix(host, ops[1..], r - m);
      TotalLenFirst(head, rest);
      BackedFirst(host, head, ops[0], rest);
      GatherFirst(host, head, rest);
      BytesPrefix(host, head, ops[0]);
      assert TotalLen(Trim(ops, r)) == Min(r, TotalLen(ops));
      PrefixOfConcat(BytesOf(host, ops[0]), Gather(host, ops[1..]), r);
    }
  }

  lemma TotalLenNothing()
    ensures TotalLen([]) == 0
  {
  }

  lemma GatherNothing<B>(host: map<nat, B>)
    ensures Backed(host, []) && Gather(host, []) == []
  {
  }

  lemma BytesPrefix<B>(host: map<nat, B>, head: Segment, op: Segment)
    requires InHost(host, op) && head.addr == op.addr && head.len <= op.len
    ensures InHost(host, head) && |BytesOf(host, op)| == op.len && BytesOf(host, head) == BytesOf(host, op)[..head.len]
  {
  }

  lemma PrefixOfConcat<B>(a: seq<B>, b: seq<B>, r: nat)
    ensures (a + b)[..Min(r, |a| + |b|)] == a[..Min(|a|, r)] + b[..Min(r - Min(|a|, r), |b|)]
  {
  }

  lemma BackedFirst<B>(host: map<nat, B>, head: Segment, op: Segment, ops: seq<Segment>)
    requires InHost(host, op) && head.addr == op.addr && head.len <= op.len && Backed(host, ops)
    ensures Backed(host, [head] + ops)
  {
    forall i | 0 <= i < |[head] + ops| ensures InHost(host, ([head] + ops)[i]) {
      if i > 0 { assert InHost(host, ops[i - 1]); }
    }
  }

  // ---- The transfer loops -------------------------------------------------------------------------------

  lemma TotalLenPrefix(ops: seq<Segment>, k: nat)
    requires k < |ops|
    ensures TotalLen(ops[..k + 1]) == TotalLen(ops[..k]) + ops[k].len <= TotalLen(ops)
  {
    assert ops[..k + 1] == ops[..k] + [ops[k]] && ops == ops[..k + 1] + ops[k + 1..];
    TotalLenLast(ops[..k], ops[k]);
    TotalLenConcat(ops[..k + 1], ops[k + 1..]);
  }

  datatype Direction = ToDevice | ToHost

  class Transfers<B(0)> {
    var host: map<nat, B>
    const ram: array<B>
    var cOpLen: nat
    var cOpSmemPg: nat

    constructor (host: map<nat, B>, ram: array<B>)
      ensures this.host == host && this.ram == ram && cOpLen == 0 && cOpSmemPg == 0
    {
      this.host, this.ram, cOpLen, cOpSmemPg := host, ram, 0, 0;
    }

    // One command to the host interface.
    method Move(e: Segment, ssdAddr: nat, dir: Direction)
      requires InHost(host, e) && ssdAddr + e.len <= ram.Length
      modifies this`host, ram
      ensures dir == ToDevice ==> host == old(host) && ram[..] == Spliced(old(ram[..]), ssdAddr, BytesOf(host, e))
      ensures dir == ToHost ==> ram[..] == old(ram[..]) && host == Put(old(host), e, ram[ssdAddr..ssdAddr + e.len])
    {
      if dir == ToDevice {
        for i := 0 to e.len
          invariant host == old(host)
          invariant forall k | 0 <= k < ram.Length ::
                      ram[k] == if ssdAddr <= k < ssdAddr + i then host[e.addr + (k - ssdAddr)] else old(ram[k])
        {
          ram[ssdAddr + i] := host[e.addr + i];
        }
      } else {
        host := Put(host, e, ram[ssdAddr..ssdAddr + e.len]);
      }
    }

    /** do_sync_rw_io_dma_operation: the whole list of a request. */
    method RwIo(ops: seq<Segment>, bufferAddr: nat, dir: Direction)
      requires Backed(host, ops) && bufferAddr + TotalLen(ops) <= ram.Length
      modifies this`host, ram
      ensures Transferred(dir, old(host), old(ram[..]), bufferAddr, ops, host, ram[..])
    {
      hide Spliced, Put, BytesOf, InHost, Transferred;
      ghost var host0, ram0 := host, ram[..];
      var nextSsdAddr := bufferAddr;
      NothingMoved(ops, bufferAddr, dir, host, ram[..]);
      for ix := 0 to |ops|
        invariant nextSsdAddr == bufferAddr + TotalLen(ops[..ix]) && ram.Length == |ram0|
        invariant Transferred(dir, host0, ram0, bufferAddr, ops[..ix], host, ram[..])
      {
        MovedOneMore(ops, bufferAddr, dir, host0, ram0, ix, host, ram[..]);
        Move(ops[ix], nextSsdAddr, dir);
        nextSsdAddr := nextSsdAddr + ops[ix].len;
      }
      assert ops[..|ops|] == ops;
    }

    /** do_sync_dma_operation: from segment c_op_smem_pg on, c_op_len bytes (all of data_size when that is 0). */
    method SyncDma(ops: seq<Segment>, bufferAddr: nat, dataSize: nat, dir: Direction)
      requires Backed(host, ops) && cOpSmemPg <= |ops|
      requires bufferAddr + TotalLen(Trim(ops[cOpSmemPg..], if cOpLen != 0 then cOpLen else dataSize)) <= ram.Length
      modifies this`host, this`cOpLen, this`cOpSmemPg, ram
      ensures cOpLen == 0 && cOpSmemPg == 0
      ensures Transferred(dir, old(host), old(ram[..]), bufferAddr,
                Trim(ops[old(cOpSmemPg)..], if old(cOpLen) != 0 then old(cOpLen) else dataSize), host, ram[..])
    {
      hide Spliced, Put, BytesOf, InHost, Transferred, TotalLen;
      var rLen: nat := if cOpLen != 0 then cOpLen else dataSize;
      ghost var host0, ram0, part := host, ram[..], Trim(ops[cOpSmemPg..], rLen);
      assert Backed(host, ops[cOpSmemPg..]);
      TrimBacked(host, ops[cOpSmemPg..], rLen);
      NothingMoved(part, bufferAddr, dir, host, ram[..]);
      var nextSsdAddr, ix := bufferAddr, cOpSmemPg;
      ghost var k := 0;
      while ix < |ops| && rLen != 0
        invariant old(cOpSmemPg) <= ix <= |ops| && 0 <= k <= |part| && part[k..] == Trim(ops[ix..], rLen)
        invariant nextSsdAddr == bufferAddr + TotalLen(part[..k]) && ram.Length == |ram0|
        invariant Transferred(dir, host0, ram0, bufferAddr, part[..k], host, ram[..])
        decreases |ops| - ix
      {
        var e := ops[ix];
        var tranLen := Min(e.len, rLen);
        assert part[k..][0] == Segment(e.addr, tranLen) && ops[ix..][1..] == ops[ix + 1..];
        MovedOneMore(part, bufferAddr, dir, host0, ram0, k, host, ram[..]);
        Move(Segment(e.addr, tranLen), nextSsdAddr, dir);
        assert part[k + 1..] == part[k..][1..];
        k := k + 1;
        ix, nextSsdAddr, rLen := ix + 1, nextSsdAddr + tranLen, rLen - tranLen;
      }
      assert part[..k] == part;
      cOpLen := 0;
      cOpSmemPg := 0;
    }
  }

  // RAM with some bytes replaced.
  function Spliced<B>(ram: seq<B>, at: nat, bytes: seq<B>): (r: seq<B>)
    requires at + |bytes| <= |ram|
    ensures |r| == |ram|
  {
    ram[..at] + bytes + ram[at + |bytes|..]
  }

  lemma SplicedTwice<B>(ram: seq<B>, at: nat, a: seq<B>, b: seq<B>)
    requires at + |a| + |b| <= |ram|
    ensures Spliced(Spliced(ram, at, a), at + |a|, b) == Spliced(ram, at, a + b)
  {
  }

  /** The transfer is one contiguous copy between the logical host buffer of the segments and RAM. */
  ghost predicate Transferred<B>(dir: Direction, host0: map<nat, B>, ram0: seq<B>, at: nat, ops: seq<Segment>,
          host: map<nat, B>, ram: seq<B>) {
    && Backed(host0, ops) && at + TotalLen(ops) <= |ram0|
    && (dir == ToDevice ==> host == host0 && ram == Spliced(ram0, at, Gather(host0, ops)))
    && (dir == ToHost ==> ram == ram0 && host == Scatter(host0, ops, ram0[at..at + TotalLen(ops)]))
  }

  lemma TrimBacked<B>(host: map<nat, B>, ops: seq<Segment>, r: nat)
    requires Backed(host, ops)
    ensures Backed(host, Trim(ops, r))
  {
    TrimIsPrefix(host, ops, r);
  }

  lemma NothingMoved<B>(ops: seq<Segment>, at: nat, dir: Direction, host: map<nat, B>, ram: seq<B>)
    requires Backed(host, ops) && at + TotalLen(ops) <= |ram|
    ensures TotalLen(ops[..0]) == 0
    ensures Transferred(dir, host, ram, at, ops[..0], host, ram)
  {
    assert ops[..0] == [];
    assert ram == ram[..at] + [] + ram[at..];
  }

  lemma MovedOneMore<B>(ops: seq<Segment>, at: nat, dir: Direction, host0: map<nat, B>, ram0: seq<B>, k: nat,
          host: map<nat, B>, ram: seq<B>)
    requires k < |ops| && Backed(host0, ops) && at + TotalLen(ops) <= |ram0|
    requires Transferred(dir, host0, ram0, at, ops[..k], host, ram)
    ensures TotalLen(ops[..k + 1]) == TotalLen(ops[..k]) + ops[k].len
    ensures InHost(host, ops[k]) && at + TotalLen(ops[..k]) + ops[k].len <= |ram0| == |ram|
    ensures var here := at + TotalLen(ops[..k]);
            && (dir == ToDevice ==>
                  Transferred(dir, host0, ram0, at, ops[..k + 1], host, Spliced(ram, here, BytesOf(host, ops[k]))))
            && (dir == ToHost ==>
                  Transferred(dir, host0, ram0, at, ops[..k + 1], Put(host, ops[k], ram[here..here + ops[k].len]), ram))
  {
    hide TotalLen, Spliced, BytesOf, Put, InHost, Transferred;
    TotalLenPrefix(ops, k);
    KeysKept(dir, host0, ram0, at, ops[..k], host, ram);
    BackedKeys(host0, host, ops);
    if dir == ToDevice {
      MovedIn(ops, at, host0, ram0, k, host, ram);
    } else {
      MovedOut(ops, at, host0, ram0, k, host, ram);
    }
  }

  lemma KeysKept<B>(dir: Direction, host0: map<nat, B>, ram0: seq<B>, at: nat, ops: seq<Segment>, host: map<nat, B>,
          ram: seq<B>)
    requires Transferred(dir, host0, ram0, at, ops, host, ram)
    ensures host.Keys == host0.Keys && |ram| == |ram0|
  {
  }

  lemma MovedIn<B>(ops: seq<Segment>, at: nat, host0: map<nat, B>, ram0: seq<B>, k: nat, host: map<nat, B>, ram: seq<B>)
    requires k < |ops| && Backed(host0, ops) && InHost(host, ops[k])
    requires at + TotalLen(ops[..k]) + ops[k].len <= |ram0| == |ram|
    requires TotalLen(ops[..k + 1]) == TotalLen(ops[..k]) + ops[k].len
    requires Transferred(ToDevice, host0, ram0, at, ops[..k], host, ram)
    ensures Transferred(ToDevice, host0, ram0, at, ops[..k + 1], host,
      Spliced(ram, at + TotalLen(ops[..k]), BytesOf(host, ops[k])))
  {
    hide TotalLen, Spliced, BytesOf, InHost;
    assert ops[..k + 1][..k] == ops[..k];
    assert Backed(host0, ops[..k + 1]);
    SplicedTwice(ram0, at, Gather(host0, ops[..k]), BytesOf(host0, ops[k]));
  }

  lemma MovedOut<B>(ops: seq<Segment>, at: nat, host0: map<nat, B>, ram0: seq<B>, k: nat, host: map<nat, B>,
          ram: seq<B>)
    requires k < |ops| && Backed(host0, ops) && InHost(host, ops[k])
    requires at + TotalLen(ops[..k]) + ops[k].len <= |ram0| == |ram|
    requires TotalLen(ops[..k + 1]) == TotalLen(ops[..k]) + ops[k].len
    requires Transferred(ToHost, host0, ram0, at, ops[..k], host, ram)
    ensures var here := at + TotalLen(ops[..k]);
            Transferred(ToHost, host0, ram0, at, ops[..k + 1], Put(host, ops[k], ram[here..here + ops[k].len]), ram)
  {
    hide TotalLen, Put, InHost;
    var here := at + TotalLen(ops[..k]);
    assert ops[..k + 1][..k] == ops[..k];
    assert Backed(host0, ops[..k + 1]);
    var data := ram0[at..here + ops[k].len];
    assert data[..TotalLen(ops[..k])] == ram0[at..here] && data[TotalLen(ops[..k])..] == ram0[here..here + ops[k].len];
  }
}
