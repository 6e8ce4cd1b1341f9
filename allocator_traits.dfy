/** address_allocator_traits<AddressAlloc>: the facade through which callers
    reach an address allocator. It picks, member by member, the forwarding
    policy when the allocator declares the member and the default policy
    otherwise, and it cuts batched operations into passes of at most
    maxMultiOps items. */
module AllocatorTraits {
  import opened AddressTypes
  import opened WrappedAllocator
  import opened TraitsBase
  import opened Chunking

  /** The facade's get_real_addr: the allocator's own translation when it
      declares one, the identity otherwise. */
  function GetRealAddr(alloc: AddressAllocator, allocatedAddr: nat): (r: nat)
    ensures alloc.caps.realAddr.None? ==> r == allocatedAddr
    ensures alloc.caps.realAddr.Some? ==> r == alloc.caps.realAddr.value(allocatedAddr)
  {
    if alloc.caps.realAddr.Some? then ForwardGetRealAddr(alloc, allocatedAddr) else DefaultGetRealAddr(alloc, allocatedAddr)
  }

  // ---------------------------------------------------------------------------
  // Batched allocate

  /** What one pass of the facade's batched allocate does to the whole output
      array st.slots, whose batch starts at position off, and to the log: the
      allocator's own multi_alloc_addr on the pass's slots when it declares
      one, the default loop otherwise. */
  function AllocPassEffect(alloc: AddressAllocator, st: BatchState, off: nat, reqs: seq<AllocRequest>, hinted: bool, ch: Chunk): (r: BatchState)
    requires off + |reqs| <= |st.slots| && ch.offset + ch.length <= |reqs|
    ensures |r.slots| == |st.slots|
    ensures |st.log| <= |r.log| && r.log[..|st.log|] == st.log
    ensures r.slots[..off + ch.offset] == st.slots[..off + ch.offset]
    ensures r.slots[off + ch.offset + ch.length..] == st.slots[off + ch.offset + ch.length..]
  {
    var part := reqs[ch.offset .. ch.offset + ch.length];
    var at := off + ch.offset;
    if alloc.caps.multiAlloc.Some? then
      var r := NativeAlloc(alloc.caps.multiAlloc.value, st.log, st.slots[at .. at + ch.length], part, hinted);
      BatchState(Splice(st.slots, at, r.slots), r.log)
    else
      AllocInPlaceFrame(alloc.strategy, alloc.Invalid(), st.log, st.slots, at, part);
      AllocInPlace(alloc.strategy, alloc.Invalid(), st.log, st.slots, at, part, 0)
  }

  /** The passes cs of the facade's batched allocate, one after the other. */
  function AllocPasses(alloc: AddressAllocator, st: BatchState, off: nat, reqs: seq<AllocRequest>, hinted: bool, cs: seq<Chunk>): (r: BatchState)
    requires off + |reqs| <= |st.slots| && EndsBy(cs, |reqs|)
    ensures |r.slots| == |st.slots|
    ensures |st.log| <= |r.log| && r.log[..|st.log|] == st.log
    decreases |cs|
  {
    if |cs| == 0 then st
    else
      var st1 := AllocPassEffect(alloc, st, off, reqs, hinted, cs[0]);
      var r := AllocPasses(alloc, st1, off, reqs, hinted, cs[1..]);
      PrefixAgree(r.log, st1.log, |st.log|, |st1.log|);
      r
  }

  /** Pass k of cs takes the state before it, t[k], to the state after it, t[k + 1]. */
  predicate AllocStepHolds(alloc: AddressAllocator, t: seq<BatchState>, off: nat, reqs: seq<AllocRequest>, hinted: bool, cs: seq<Chunk>, k: nat)
  {
    k < |cs| && k + 1 < |t| && off + |reqs| <= |t[k].slots| && cs[k].offset + cs[k].length <= |reqs| &&
    t[k + 1] == AllocPassEffect(alloc, t[k], off, reqs, hinted, cs[k])
  }

  /** t lists the states of the batched allocate before each pass of cs and after the last one. */
  predicate IsAllocTrace(alloc: AddressAllocator, t: seq<BatchState>, off: nat, reqs: seq<AllocRequest>, hinted: bool, cs: seq<Chunk>)
  {
    |t| == |cs| + 1 && forall k: nat :: k < |cs| ==> AllocStepHolds(alloc, t, off, reqs, hinted, cs, k)
  }

  /** The states the batched allocate passes through, from st on. */
  function AllocTrace(alloc: AddressAllocator, st: BatchState, off: nat, reqs: seq<AllocRequest>, hinted: bool, cs: seq<Chunk>): (t: seq<BatchState>)
    requires off + |reqs| <= |st.slots| && EndsBy(cs, |reqs|)
    decreases |cs|
  {
    if |cs| == 0 then [st]
    else [st] + AllocTrace(alloc, AllocPassEffect(alloc, st, off, reqs, hinted, cs[0]), off, reqs, hinted, cs[1..])
  }

  /** A trace of the passes after the first, started from the state the
      first pass leaves, becomes a trace of all the passes once st is put in front. */
  lemma AllocTraceCons(alloc: AddressAllocator, st: BatchState, t1: seq<BatchState>, off: nat, reqs: seq<AllocRequest>, hinted: bool, cs: seq<Chunk>)
    requires off + |reqs| <= |st.slots| && EndsBy(cs, |reqs|) && |cs| > 0
    requires IsAllocTrace(alloc, t1, off, reqs, hinted, cs[1..]) && t1[0] == AllocPassEffect(alloc, st, off, reqs, hinted, cs[0])
    ensures IsAllocTrace(alloc, [st] + t1, off, reqs, hinted, cs)
  {
    var t := [st] + t1;
    forall k: nat | k < |cs| ensures AllocStepHolds(alloc, t, off, reqs, hinted, cs, k) {
      if k > 0 {
        assert AllocStepHolds(alloc, t1, off, reqs, hinted, cs[1..], k - 1);
        assert t[k] == t1[k - 1] && t[k + 1] == t1[k] && cs[k] == cs[1..][k - 1];
      }
    }
  }

  /** The trace starts at st, takes one pass per step and ends in the state AllocPasses computes. */
  lemma {:induction false} AllocTraceSteps(alloc: AddressAllocator, st: BatchState, off: nat, reqs: seq<AllocRequest>, hinted: bool, cs: seq<Chunk>)
    requires off + |reqs| <= |st.slots| && EndsBy(cs, |reqs|)
    ensures var t := AllocTrace(alloc, st, off, reqs, hinted, cs);
            IsAllocTrace(alloc, t, off, reqs, hinted, cs) && t[0] == st && t[|cs|] == AllocPasses(alloc, st, off, reqs, hinted, cs)
    decreases |cs|
  {
    if |cs| > 0 {
      var st1 := AllocPassEffect(alloc, st, off, reqs, hinted, cs[0]);
      EndsByTail(cs, |reqs|);
      var t1 := AllocTrace(alloc, st1, off, reqs, hinted, cs[1..]);
      AllocTraceSteps(alloc, st1, off, reqs, hinted, cs[1..]);
      AllocTraceCons(alloc, st, t1, off, reqs, hinted, cs);
      assert AllocPasses(alloc, st, off, reqs, hinted, cs) == AllocPasses(alloc, st1, off, reqs, hinted, cs[1..]);
      assert AllocTrace(alloc, st, off, reqs, hinted, cs) == [st] + t1;
      assert ([st] + t1)[|cs|] == t1[|cs| - 1];
    }
  }


  /** address_allocator_traits::multi_alloc_addr. The output slots must be
      primed with the sentinel: only those slots are allocated for. */
  method MultiAllocAddr(alloc: AddressAllocator, count: nat, out: Ptr, bytes: Ptr, alignment: Ptr, hint: Option<Ptr>)
    requires Spans(out, count) && Spans(bytes, count) && Spans(alignment, count)
    requires hint.Some? ==> Spans(hint.value, count)
    requires Unaliased(out, bytes, alignment, hint)
    requires count == 0 || MaxMultiOps(alloc.caps) >= 1
    modifies alloc, out.arr
    ensures var r := AllocPasses(alloc, BatchState(old(out.arr[..]), old(alloc.log)), out.off,
                                 ChunkRequests(bytes, alignment, hint, count), hint.Some?, Chunks(count, MaxMultiOps(alloc.caps)));
            out.arr[..] == r.slots && alloc.log == r.log
  {
    var c := MaxMultiOps(alloc.caps);
    ghost var reqs := ChunkRequests(bytes, alignment, hint, count);
    ghost var cs := Chunks(count, c);
    ghost var st := BatchState(out.arr[..], alloc.log);
    AllocTraceSteps(alloc, st, out.off, reqs, hint.Some?, cs);
    AllocPassLoop(alloc, count, out, bytes, alignment, hint, c, reqs, cs, AllocTrace(alloc, st, out.off, reqs, hint.Some?, cs));
  }

  /** The facade loop `for (i = 0; i < count; i += c)`, which walks the trace t one pass at a time. */
  method AllocPassLoop(alloc: AddressAllocator, count: nat, out: Ptr, bytes: Ptr, alignment: Ptr, hint: Option<Ptr>,
                       c: nat, ghost reqs: seq<AllocRequest>, ghost cs: seq<Chunk>, ghost t: seq<BatchState>)
    requires Spans(out, count) && Spans(bytes, count) && Spans(alignment, count)
    requires hint.Some? ==> Spans(hint.value, count)
    requires Unaliased(out, bytes, alignment, hint)
    requires (count == 0 || c >= 1) && reqs == ChunkRequests(bytes, alignment, hint, count)
    requires cs == ChunksFrom(count, c, 0) && IsAllocTrace(alloc, t, out.off, reqs, hint.Some?, cs)
    requires out.arr[..] == t[0].slots && alloc.log == t[0].log
    modifies alloc, out.arr
    ensures out.arr[..] == t[|cs|].slots && alloc.log == t[|cs|].log
  {
    var i := 0;
    ghost var k := 0;
    while i < count
      invariant k <= |cs| && cs[k..] == ChunksFrom(count, c, i)
      invariant reqs == ChunkRequests(bytes, alignment, hint, count)
      invariant out.arr[..] == t[k].slots && alloc.log == t[k].log
      decreases count - i
    {
      ChunksFromNext(cs, k, count, c, i);
      AllocPassStep(alloc, count, out, bytes, alignment, hint, i, Min(count - i, c), reqs, cs, t, k);
      i := i + c;
      k := k + 1;
    }
  }

  /** One iteration of the facade loop: pass k of the trace. */
  method AllocPassStep(alloc: AddressAllocator, count: nat, out: Ptr, bytes: Ptr, alignment: Ptr, hint: Option<Ptr>,
                       i: nat, n: nat, ghost reqs: seq<AllocRequest>, ghost cs: seq<Chunk>, ghost t: seq<BatchState>, ghost k: nat)
    requires Spans(out, count) && Spans(bytes, count) && Spans(alignment, count)
    requires hint.Some? ==> Spans(hint.value, count)
    requires Unaliased(out, bytes, alignment, hint)
    requires i + n <= count && reqs == ChunkRequests(bytes, alignment, hint, count)
    requires IsAllocTrace(alloc, t, out.off, reqs, hint.Some?, cs) && k < |cs| && cs[k] == Chunk(i, n)
    requires out.arr[..] == t[k].slots && alloc.log == t[k].log
    modifies alloc, out.arr
    ensures out.arr[..] == t[k + 1].slots && alloc.log == t[k + 1].log
    ensures reqs == ChunkRequests(bytes, alignment, hint, count)
  {
    AllocTraceStepCases(alloc, t, out.off, reqs, hint.Some?, cs, k, i, n);
    if alloc.caps.multiAlloc.Some? {
      NativeAllocPass(alloc, count, out, bytes, alignment, hint, i, n, t[k], reqs[i .. i + n]);
    } else {
      DefaultAllocPass(alloc, count, out, bytes, alignment, hint, i, n, t[k], reqs[i .. i + n]);
    }
  }

  /** Pass k of the trace on each policy: the allocator's own multi_alloc_addr
      on slots [i, i + n) when it declares one, the default loop otherwise. */
  lemma AllocTraceStepCases(alloc: AddressAllocator, t: seq<BatchState>, off: nat, reqs: seq<AllocRequest>, hinted: bool, cs: seq<Chunk>,
                            k: nat, i: nat, n: nat)
    requires IsAllocTrace(alloc, t, off, reqs, hinted, cs) && k < |cs| && cs[k] == Chunk(i, n)
    ensures off + |reqs| <= |t[k].slots| && i + n <= |reqs|
    ensures alloc.caps.multiAlloc.Some? ==>
              var r := NativeAlloc(alloc.caps.multiAlloc.value, t[k].log, t[k].slots[off + i .. off + i + n], reqs[i .. i + n], hinted);
              t[k + 1] == BatchState(Splice(t[k].slots, off + i, r.slots), r.log)
    ensures alloc.caps.multiAlloc.None? ==>
              t[k + 1] == AllocInPlace(alloc.strategy, alloc.Invalid(), t[k].log, t[k].slots, off + i, reqs[i .. i + n], 0)
  {
    assert AllocStepHolds(alloc, t, off, reqs, hinted, cs, k);
  }

  /** A pass handed to the allocator's own multi_alloc_addr. */
  method NativeAllocPass(alloc: AddressAllocator, count: nat, out: Ptr, bytes: Ptr, alignment: Ptr, hint: Option<Ptr>,
                         i: nat, n: nat, ghost st: BatchState, ghost part: seq<AllocRequest>)
    requires alloc.caps.multiAlloc.Some?
    requires Spans(out, count) && Spans(bytes, count) && Spans(alignment, count)
    requires hint.Some? ==> Spans(hint.value, count)
    requires Unaliased(out, bytes, alignment, hint)
    requires i + n <= count && part == ChunkRequests(bytes, alignment, hint, count)[i .. i + n]
    requires st == BatchState(out.arr[..], alloc.log)
    modifies alloc, out.arr
    ensures var r := NativeAlloc(alloc.caps.multiAlloc.value, st.log, st.slots[out.off + i .. out.off + i + n], part, hint.Some?);
            out.arr[..] == Splice(st.slots, out.off + i, r.slots) && alloc.log == r.log
  {
    var o, b, a, h := Advance(out, i), Advance(bytes, i), Advance(alignment, i), AdvanceHint(hint, i);
    ChunkRequestsAdvance(bytes, alignment, hint, count, i, n);
    assert ChunkRequests(b, a, h, n) == part;
    assert o.arr == out.arr && o.off == out.off + i && Unaliased(o, b, a, h) && h.Some? == hint.Some?;
    ForwardMultiAllocAddr(alloc, n, o, b, a, h);
  }

  /** A pass made by the default loop of single-item allocations. */
  method DefaultAllocPass(alloc: AddressAllocator, count: nat, out: Ptr, bytes: Ptr, alignment: Ptr, hint: Option<Ptr>,
                          i: nat, n: nat, ghost st: BatchState, ghost part: seq<AllocRequest>)
    requires alloc.caps.multiAlloc.None?
    requires Spans(out, count) && Spans(bytes, count) && Spans(alignment, count)
    requires hint.Some? ==> Spans(hint.value, count)
    requires Unaliased(out, bytes, alignment, hint)
    requires i + n <= count && part == ChunkRequests(bytes, alignment, hint, count)[i .. i + n]
    requires st == BatchState(out.arr[..], alloc.log)
    modifies alloc, out.arr
    ensures BatchState(out.arr[..], alloc.log) == AllocInPlace(alloc.strategy, alloc.Invalid(), st.log, st.slots, out.off + i, part, 0)
  {
    var o, b, a, h := Advance(out, i), Advance(bytes, i), Advance(alignment, i), AdvanceHint(hint, i);
    ChunkRequestsAdvance(bytes, alignment, hint, count, i, n);
    assert ChunkRequests(b, a, h, n) == part;
    assert o.arr == out.arr && o.off == out.off + i && Unaliased(o, b, a, h);
    DefaultMultiAllocAddr(alloc, n, o, b, a, h);
  }

  // ---------------------------------------------------------------------------
  // Batched free

  /** What one pass of the facade's batched free appends to the log. */
  function FreePassEffect(alloc: AddressAllocator, log: seq<Call>, addrs: seq<nat>, sizes: seq<nat>, ch: Chunk): (r: seq<Call>)
    requires |sizes| == |addrs| && ch.offset + ch.length <= |addrs|
    ensures |log| <= |r| && r[..|log|] == log
  {
    var a := addrs[ch.offset .. ch.offset + ch.length];
    var s := sizes[ch.offset .. ch.offset + ch.length];
    if alloc.caps.multiFree then log + [BatchFree(a, s)] else log + FreeLoop(alloc.Invalid(), a, s)
  }

  /** The passes cs of the facade's batched free, one after the other. */
  function FreePasses(alloc: AddressAllocator, log: seq<Call>, addrs: seq<nat>, sizes: seq<nat>, cs: seq<Chunk>): (r: seq<Call>)
    requires |sizes| == |addrs| && EndsBy(cs, |addrs|)
    ensures |log| <= |r| && r[..|log|] == log
    decreases |cs|
  {
    if |cs| == 0 then log
    else
      var log1 := FreePassEffect(alloc, log, addrs, sizes, cs[0]);
      var r := FreePasses(alloc, log1, addrs, sizes, cs[1..]);
      PrefixAgree(r, log1, |log|, |log1|);
      r
  }

  /** Pass k of cs takes the log before it, t[k], to the log after it, t[k + 1]. */
  predicate FreeStepHolds(alloc: AddressAllocator, t: seq<seq<Call>>, addrs: seq<nat>, sizes: seq<nat>, cs: seq<Chunk>, k: nat)
  {
    k < |cs| && k + 1 < |t| && |sizes| == |addrs| && cs[k].offset + cs[k].length <= |addrs| &&
    t[k + 1] == FreePassEffect(alloc, t[k], addrs, sizes, cs[k])
  }

  /** t lists the logs of the batched free before each pass of cs and after the last one. */
  predicate IsFreeTrace(alloc: AddressAllocator, t: seq<seq<Call>>, addrs: seq<nat>, sizes: seq<nat>, cs: seq<Chunk>)
  {
    |t| == |cs| + 1 && forall k: nat :: k < |cs| ==> FreeStepHolds(alloc, t, addrs, sizes, cs, k)
  }

  /** The logs the batched free passes through, from log on. */
  function FreeTrace(alloc: AddressAllocator, log: seq<Call>, addrs: seq<nat>, sizes: seq<nat>, cs: seq<Chunk>): (t: seq<seq<Call>>)
    requires |sizes| == |addrs| && EndsBy(cs, |addrs|)
    decreases |cs|
  {
    if |cs| == 0 then [log]
    else [log] + FreeTrace(alloc, FreePassEffect(alloc, log, addrs, sizes, cs[0]), addrs, sizes, cs[1..])
  }

  /** A trace of the passes after the first, started from the log the first
      pass leaves, becomes a trace of all the passes once log is put in front. */
  lemma FreeTraceCons(alloc: AddressAllocator, log: seq<Call>, t1: seq<seq<Call>>, addrs: seq<nat>, sizes: seq<nat>, cs: seq<Chunk>)
    requires |sizes| == |addrs| && EndsBy(cs, |addrs|) && |cs| > 0
    requires IsFreeTrace(alloc, t1, addrs, sizes, cs[1..]) && t1[0] == FreePassEffect(alloc, log, addrs, sizes, cs[0])
    ensures IsFreeTrace(alloc, [log] + t1, addrs, sizes, cs)
  {
    var t := [log] + t1;
    forall k: nat | k < |cs| ensures FreeStepHolds(alloc, t, addrs, sizes, cs, k) {
      if k > 0 {
        assert FreeStepHolds(alloc, t1, addrs, sizes, cs[1..], k - 1);
        assert t[k] == t1[k - 1] && t[k + 1] == t1[k] && cs[k] == cs[1..][k - 1];
      }
    }
  }

  /** The trace starts at log, takes one pass per step and ends in the log FreePasses computes. */
  lemma {:induction false} FreeTraceSteps(alloc: AddressAllocator, log: seq<Call>, addrs: seq<nat>, sizes: seq<nat>, cs: seq<Chunk>)
    requires |sizes| == |addrs| && EndsBy(cs, |addrs|)
    ensures var t := FreeTrace(alloc, log, addrs, sizes, cs);
            IsFreeTrace(alloc, t, addrs, sizes, cs) && t[0] == log && t[|cs|] == FreePasses(alloc, log, addrs, sizes, cs)
    decreases |cs|
  {
    if |cs| > 0 {
      var log1 := FreePassEffect(alloc, log, addrs, sizes, cs[0]);
      EndsByTail(cs, |addrs|);
      var t1 := FreeTrace(alloc, log1, addrs, sizes, cs[1..]);
      FreeTraceSteps(alloc, log1, addrs, sizes, cs[1..]);
      FreeTraceCons(alloc, log, t1, addrs, sizes, cs);
      assert FreePasses(alloc, log, addrs, sizes, cs) == FreePasses(alloc, log1, addrs, sizes, cs[1..]);
      assert FreeTrace(alloc, log, addrs, sizes, cs) == [log] + t1;
      assert ([log] + t1)[|cs|] == t1[|cs| - 1];
    }
  }


  /** address_allocator_traits::multi_free_addr. */
  method MultiFreeAddr(alloc: AddressAllocator, count: nat, addr: Ptr, bytes: Ptr)
    requires Spans(addr, count) && Spans(bytes, count)
    requires count == 0 || MaxMultiOps(alloc.caps) >= 1
    modifies alloc
    ensures alloc.log == FreePasses(alloc, old(alloc.log), Slice(addr, count), Slice(bytes, count),
                                    Chunks(count, MaxMultiOps(alloc.caps)))
  {
    var c := MaxMultiOps(alloc.caps);
    ghost var addrs, sizes := Slice(addr, count), Slice(bytes, count);
    ghost var cs := Chunks(count, c);
    FreeTraceSteps(alloc, alloc.log, addrs, sizes, cs);
    FreePassLoop(alloc, count, addr, bytes, c, addrs, sizes, cs, FreeTrace(alloc, alloc.log, addrs, sizes, cs));
  }

  /** The facade loop `for (i = 0; i < count; i += c)`, which walks the trace t one pass at a time. */
  method FreePassLoop(alloc: AddressAllocator, count: nat, addr: Ptr, bytes: Ptr, c: nat,
                      ghost addrs: seq<nat>, ghost sizes: seq<nat>, ghost cs: seq<Chunk>, ghost t: seq<seq<Call>>)
    requires Spans(addr, count) && Spans(bytes, count)
    requires (count == 0 || c >= 1) && addrs == Slice(addr, count) && sizes == Slice(bytes, count)
    requires cs == ChunksFrom(count, c, 0) && IsFreeTrace(alloc, t, addrs, sizes, cs) && alloc.log == t[0]
    modifies alloc
    ensures alloc.log == t[|cs|]
  {
    var i := 0;
    ghost var k := 0;
    while i < count
      invariant k <= |cs| && cs[k..] == ChunksFrom(count, c, i)
      invariant addrs == Slice(addr, count) && sizes == Slice(bytes, count)
      invariant alloc.log == t[k]
      decreases count - i
    {
      ChunksFromNext(cs, k, count, c, i);
      FreePassStep(alloc, count, addr, bytes, i, Min(count - i, c), addrs, sizes, cs, t, k);
      i := i + c;
      k := k + 1;
    }
  }

  /** Pass k of the trace on each policy: the allocator's own multi_free_addr
      on items [i, i + n) when it declares one, the default loop otherwise. */
  lemma FreeTraceStepCases(alloc: AddressAllocator, t: seq<seq<Call>>, addrs: seq<nat>, sizes: seq<nat>, cs: seq<Chunk>,
                           k: nat, i: nat, n: nat)
    requires IsFreeTrace(alloc, t, addrs, sizes, cs) && k < |cs| && cs[k] == Chunk(i, n)
    ensures |sizes| == |addrs| && i + n <= |addrs|
    ensures alloc.caps.multiFree ==> t[k + 1] == t[k] + [BatchFree(addrs[i .. i + n], sizes[i .. i + n])]
    ensures !alloc.caps.multiFree ==> t[k + 1] == t[k] + FreeLoop(alloc.Invalid(), addrs[i .. i + n], sizes[i .. i + n])
  {
    assert FreeStepHolds(alloc, t, addrs, sizes, cs, k);
  }

  /** One iteration of the facade loop: `multi_free_addr(alloc, min(count - i,
      maxMultiOps), allocatedAddr + i, bytes + i)` on the policy the allocator selects. */
  method FreePassStep(alloc: AddressAllocator, count: nat, addr: Ptr, bytes: Ptr, i: nat, n: nat,
                      ghost addrs: seq<nat>, ghost sizes: seq<nat>, ghost cs: seq<Chunk>, ghost t: seq<seq<Call>>, ghost k: nat)
    requires Spans(addr, count) && Spans(bytes, count)
    requires addrs == Slice(addr, count) && sizes == Slice(bytes, count)
    requires IsFreeTrace(alloc, t, addrs, sizes, cs) && k < |cs| && cs[k] == Chunk(i, n) && alloc.log == t[k]
    modifies alloc
    ensures alloc.log == t[k + 1]
    ensures addrs == Slice(addr, count) && sizes == Slice(bytes, count)
  {
    FreeTraceStepCases(alloc, t, addrs, sizes, cs, k, i, n);
    SliceAdvance(addr, count, i, n);
    SliceAdvance(bytes, count, i, n);
    if alloc.caps.multiFree {
      ForwardMultiFreeAddr(alloc, n, Advance(addr, i), Advance(bytes, i));
    } else {
      DefaultMultiFreeAddr(alloc, n, Advance(addr, i), Advance(bytes, i));
    }
  }
}
