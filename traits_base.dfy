/** impl::address_allocator_traits_base: the two policies behind the facade.
    The default policy (an allocator that does not declare the member) supplies
    the capability constants, a batched allocate and a batched free written as
    loops over the single-item operations, and an identity get_real_addr. The
    forwarding policy hands each call to the allocator's own member. */
module TraitsBase {
  import opened AddressTypes
  import opened WrappedAllocator

  // Default capability constants.
  const DefaultSupportsArbitraryOrderFrees: bool := true
  const DefaultMaxMultiOps: nat := 256
  const DefaultSupportsNullBuffer: bool := false

  /** supportsArbitraryOrderFrees of the policy chosen by whether the allocator declares it.
      The facade's own public constant for it is commented out; this follows that line. */
  function SupportsArbitraryOrderFrees(caps: Capabilities): (r: bool)
    ensures caps.supportsArbitraryOrderFrees.None? ==> r == DefaultSupportsArbitraryOrderFrees
    ensures caps.supportsArbitraryOrderFrees.Some? ==> r == caps.supportsArbitraryOrderFrees.value
  {
    match caps.supportsArbitraryOrderFrees
    case None => DefaultSupportsArbitraryOrderFrees
    case Some(b) => b
  }

  /** maxMultiOps of the policy chosen by whether the allocator declares it, as the
      facade's batched allocate and free each select it for their own chunk loop. */
  function MaxMultiOps(caps: Capabilities): (r: nat)
    ensures caps.maxMultiOps.None? ==> r == DefaultMaxMultiOps
    ensures caps.maxMultiOps.Some? ==> r == caps.maxMultiOps.value
  {
    match caps.maxMultiOps
    case None => DefaultMaxMultiOps
    case Some(n) => n
  }

  /** An allocator declaring none of the constants gets the documented defaults. */
  lemma BareAllocatorDefaults()
    ensures SupportsArbitraryOrderFrees(Bare) == true
    ensures MaxMultiOps(Bare) == 256
    ensures DefaultSupportsNullBuffer == false
  {
  }

  /** Number of entries of s equal to v. */
  function Occurrences(s: seq<nat>, v: nat): (n: nat)
    ensures n <= |s|
    decreases |s|
  {
    if |s| == 0 then 0 else (if s[0] == v then 1 else 0) + Occurrences(s[1..], v)
  }

  lemma {:induction false} OccurrencesAppend(a: seq<nat>, b: seq<nat>, v: nat)
    ensures Occurrences(a + b, v) == Occurrences(a, v) + Occurrences(b, v)
    decreases |a|
  {
    if |a| == 0 {
      assert a + b == b;
    } else {
      assert (a + b)[1..] == a[1..] + b;
      OccurrencesAppend(a[1..], b, v);
    }
  }

  /** A prefix that reaches past an entry equal to v counts it. */
  lemma OccurrencesPrefixGrows(s: seq<nat>, v: nat, j1: nat, j2: nat)
    requires j1 < j2 <= |s| && s[j1] == v
    ensures Occurrences(s[..j1], v) < Occurrences(s[..j2], v)
  {
    assert s[..j2] == s[..j1] + s[j1..j2];
    OccurrencesAppend(s[..j1], s[j1..j2], v);
    assert s[j1..j2] == [s[j1]] + s[j1 + 1..j2];
  }

  // ---------------------------------------------------------------------------
  // Default multi_alloc_addr

  /** One iteration of the default batched allocate: a slot that holds
      something other than the sentinel is kept; a sentinel slot receives the
      answer to one single-item allocation, which is recorded in the log. */
  function AllocSlot(strategy: AllocStrategy, inv: nat, log: seq<Call>, slot: nat, req: AllocRequest): (r: BatchState)
    ensures |r.slots| == 1
    ensures slot != inv ==> r == BatchState([slot], log)
    ensures slot == inv ==> r.log == log + [Alloc(req, r.slots[0])] && r.slots[0] == strategy(log, req)
  {
    if slot != inv then BatchState([slot], log)
    else
      var a := strategy(log, req);
      BatchState([a], log + [Alloc(req, a)])
  }

  /** The default batched allocate over a whole batch, slot by slot in index order. */
  function AllocLoop(strategy: AllocStrategy, inv: nat, log: seq<Call>, slots: seq<nat>, reqs: seq<AllocRequest>): (r: BatchState)
    requires |reqs| == |slots|
    ensures |r.slots| == |slots|
    ensures |log| <= |r.log| && r.log[..|log|] == log
    decreases |slots|
  {
    if |slots| == 0 then BatchState([], log)
    else
      var head := AllocSlot(strategy, inv, log, slots[0], reqs[0]);
      var tail := AllocLoop(strategy, inv, head.log, slots[1..], reqs[1..]);
      BatchState(head.slots + tail.slots, tail.log)
  }

  /** A slot that does not hold the sentinel on entry holds the same value on exit. */
  lemma {:induction false} AllocLoopKeepsFilledSlots(strategy: AllocStrategy, inv: nat, log: seq<Call>, slots: seq<nat>, reqs: seq<AllocRequest>)
    requires |reqs| == |slots|
    ensures var r := AllocLoop(strategy, inv, log, slots, reqs);
            forall j :: 0 <= j < |slots| && slots[j] != inv ==> r.slots[j] == slots[j]
    decreases |slots|
  {
    if |slots| > 0 {
      var head := AllocSlot(strategy, inv, log, slots[0], reqs[0]);
      AllocLoopKeepsFilledSlots(strategy, inv, head.log, slots[1..], reqs[1..]);
    }
  }

  /** The loop makes exactly one single-item allocation per sentinel slot and
      appends nothing but those allocations to the log. */
  lemma {:induction false} AllocLoopCallCount(strategy: AllocStrategy, inv: nat, log: seq<Call>, slots: seq<nat>, reqs: seq<AllocRequest>)
    requires |reqs| == |slots|
    ensures var r := AllocLoop(strategy, inv, log, slots, reqs);
            |r.log| == |log| + Occurrences(slots, inv) &&
            forall k :: |log| <= k < |r.log| ==> r.log[k].Alloc?
    decreases |slots|
  {
    if |slots| > 0 {
      var head := AllocSlot(strategy, inv, log, slots[0], reqs[0]);
      AllocLoopCallCount(strategy, inv, head.log, slots[1..], reqs[1..]);
    }
  }

  /** Sentinel slot j is served by call number |log| + (sentinels before j):
      that call asks for exactly reqs[j], its answer is what slot j holds, and
      the answer is the strategy's reply given every call made before it. */
  lemma {:induction false} AllocLoopSlotCall(strategy: AllocStrategy, inv: nat, log: seq<Call>, slots: seq<nat>, reqs: seq<AllocRequest>, j: nat)
    requires |reqs| == |slots| && j < |slots| && slots[j] == inv
    ensures var r := AllocLoop(strategy, inv, log, slots, reqs);
            var c := |log| + Occurrences(slots[..j], inv);
            c < |r.log| &&
            r.log[c] == Alloc(reqs[j], r.slots[j]) &&
            r.slots[j] == strategy(r.log[..c], reqs[j])
    decreases |slots|
  {
    var head := AllocSlot(strategy, inv, log, slots[0], reqs[0]);
    var r := AllocLoop(strategy, inv, log, slots, reqs);
    if j == 0 {
      assert slots[..0] == [];
      assert r.log[..|head.log|] == head.log;
      assert r.log[..|log|] == log;
    } else {
      assert slots[..j] == [slots[0]] + slots[1..][..j - 1];
      AllocLoopSlotCall(strategy, inv, head.log, slots[1..], reqs[1..], j - 1);
      var c := |log| + Occurrences(slots[..j], inv);
      var tail := AllocLoop(strategy, inv, head.log, slots[1..], reqs[1..]);
      assert r.slots[j] == tail.slots[j - 1];
      assert c == |head.log| + Occurrences(slots[1..][..j - 1], inv);
    }
  }

  /** Calls are made in increasing slot order: of two sentinel slots j1 < j2,
      the call that serves j1 comes earlier in the log than the one that serves j2. */
  lemma AllocCallsInSlotOrder(strategy: AllocStrategy, inv: nat, log: seq<Call>, slots: seq<nat>, reqs: seq<AllocRequest>,
                              j1: nat, j2: nat)
    requires |reqs| == |slots| && j1 < j2 < |slots| && slots[j1] == inv && slots[j2] == inv
    ensures var r := AllocLoop(strategy, inv, log, slots, reqs);
            var c1, c2 := |log| + Occurrences(slots[..j1], inv), |log| + Occurrences(slots[..j2], inv);
            |log| <= c1 < c2 < |r.log| &&
            r.log[c1] == Alloc(reqs[j1], r.slots[j1]) && r.log[c2] == Alloc(reqs[j2], r.slots[j2])
  {
    AllocLoopSlotCall(strategy, inv, log, slots, reqs, j1);
    AllocLoopSlotCall(strategy, inv, log, slots, reqs, j2);
    OccurrencesPrefixGrows(slots, inv, j1, j2);
  }

  /** The loop over a + b is the loop over a followed by the loop over b, the
      second starting from the log the first left behind. */
  lemma {:induction false} AllocLoopAppend(strategy: AllocStrategy, inv: nat, log: seq<Call>,
                                           a: seq<nat>, qa: seq<AllocRequest>, b: seq<nat>, qb: seq<AllocRequest>)
    requires |qa| == |a| && |qb| == |b|
    ensures var ra := AllocLoop(strategy, inv, log, a, qa);
            var rb := AllocLoop(strategy, inv, ra.log, b, qb);
            AllocLoop(strategy, inv, log, a + b, qa + qb) == BatchState(ra.slots + rb.slots, rb.log)
    decreases |a|
  {
    if |a| == 0 {
      assert a + b == b && qa + qb == qb;
    } else {
      assert (a + b)[1..] == a[1..] + b;
      assert (qa + qb)[1..] == qa[1..] + qb;
      var head := AllocSlot(strategy, inv, log, a[0], qa[0]);
      var ra' := AllocLoop(strategy, inv, head.log, a[1..], qa[1..]);
      var rb := AllocLoop(strategy, inv, ra'.log, b, qb);
      AllocLoopAppend(strategy, inv, head.log, a[1..], qa[1..], b, qb);
      assert AllocLoop(strategy, inv, log, a, qa) == BatchState(head.slots + ra'.slots, ra'.log);
      assert head.slots + (ra'.slots + rb.slots) == (head.slots + ra'.slots) + rb.slots;
    }
  }

  /** The loop never creates sentinel slots that were not there: at most as
      many slots hold the sentinel afterwards as before. */
  lemma {:induction false} AllocLoopPendingShrinks(strategy: AllocStrategy, inv: nat, log: seq<Call>, slots: seq<nat>, reqs: seq<AllocRequest>)
    requires |reqs| == |slots|
    ensures Occurrences(AllocLoop(strategy, inv, log, slots, reqs).slots, inv) <= Occurrences(slots, inv)
    decreases |slots|
  {
    if |slots| > 0 {
      var head := AllocSlot(strategy, inv, log, slots[0], reqs[0]);
      var tail := AllocLoop(strategy, inv, head.log, slots[1..], reqs[1..]);
      AllocLoopPendingShrinks(strategy, inv, head.log, slots[1..], reqs[1..]);
      OccurrencesAppend(head.slots, tail.slots, inv);
    }
  }

  /** Retrying a partially failed batch: a second run over the first run's
      output keeps every slot the first run filled and allocates only for the
      slots still holding the sentinel, which are no more than at the start. */
  lemma RetryTouchesOnlyFailedSlots(strategy: AllocStrategy, inv: nat, log: seq<Call>, slots: seq<nat>, reqs: seq<AllocRequest>)
    requires |reqs| == |slots|
    ensures var r1 := AllocLoop(strategy, inv, log, slots, reqs);
            var r2 := AllocLoop(strategy, inv, r1.log, r1.slots, reqs);
            (forall j :: 0 <= j < |slots| && r1.slots[j] != inv ==> r2.slots[j] == r1.slots[j]) &&
            |r2.log| - |r1.log| == Occurrences(r1.slots, inv) <= Occurrences(slots, inv)
  {
    var r1 := AllocLoop(strategy, inv, log, slots, reqs);
    AllocLoopKeepsFilledSlots(strategy, inv, r1.log, r1.slots, reqs);
    AllocLoopCallCount(strategy, inv, r1.log, r1.slots, reqs);
    AllocLoopPendingShrinks(strategy, inv, log, slots, reqs);
  }

  /** The default batched allocate as it runs on the caller's whole output
      array a, whose batch starts at position off: slots i, i + 1, ... of the
      batch are processed in place, each one by AllocSlot. */
  function AllocInPlace(strategy: AllocStrategy, inv: nat, log: seq<Call>, a: seq<nat>, off: nat,
                        reqs: seq<AllocRequest>, i: nat): (r: BatchState)
    requires off + |reqs| <= |a| && i <= |reqs|
    ensures |r.slots| == |a|
    decreases |reqs| - i
  {
    if i == |reqs| then BatchState(a, log)
    else
      var step := AllocSlot(strategy, inv, log, a[off + i], reqs[i]);
      AllocInPlace(strategy, inv, step.log, a[off + i := step.slots[0]], off, reqs, i + 1)
  }

  /** Processing the batch in place from slot i on writes AllocLoop's answer
      for the remaining slots over them and leaves the rest of the array alone. */
  lemma {:induction false} AllocInPlaceFrom(strategy: AllocStrategy, inv: nat, log: seq<Call>, a: seq<nat>, off: nat,
                                            reqs: seq<AllocRequest>, i: nat)
    requires off + |reqs| <= |a| && i <= |reqs|
    ensures var r := AllocLoop(strategy, inv, log, a[off + i .. off + |reqs|], reqs[i..]);
            AllocInPlace(strategy, inv, log, a, off, reqs, i) == BatchState(a[..off + i] + r.slots + a[off + |reqs|..], r.log)
    decreases |reqs| - i
  {
    var n := |reqs|;
    if i == n {
      assert a[off + n .. off + n] == [] && reqs[n..] == [];
      assert a[..off + n] + [] + a[off + n..] == a;
    } else {
      var step := AllocSlot(strategy, inv, log, a[off + i], reqs[i]);
      var a' := a[off + i := step.slots[0]];
      AllocInPlaceFrom(strategy, inv, step.log, a', off, reqs, i + 1);
      UpdateSlices(a, off + i, off + n, step.slots[0]);
      assert reqs[i + 1..] == reqs[i..][1..];
      var tail := AllocLoop(strategy, inv, step.log, a'[off + i + 1 .. off + n], reqs[i + 1..]);
      assert AllocLoop(strategy, inv, log, a[off + i .. off + n], reqs[i..]) == BatchState(step.slots + tail.slots, tail.log);
      var v := step.slots[0];
      assert step.slots == [v];
      assert (a[..off + i] + [v]) + tail.slots == a[..off + i] + ([v] + tail.slots);
    }
  }

  /** The in-place run over a batch changes no cell outside the batch and only
      appends to the log. */
  lemma AllocInPlaceFrame(strategy: AllocStrategy, inv: nat, log: seq<Call>, a: seq<nat>, off: nat, reqs: seq<AllocRequest>)
    requires off + |reqs| <= |a|
    ensures var r := AllocInPlace(strategy, inv, log, a, off, reqs, 0);
            |log| <= |r.log| && r.log[..|log|] == log &&
            r.slots[..off] == a[..off] && r.slots[off + |reqs|..] == a[off + |reqs|..]
  {
    var r := AllocLoop(strategy, inv, log, a[off .. off + |reqs|], reqs);
    AllocInPlaceFrom(strategy, inv, log, a, off, reqs, 0);
    assert reqs[0..] == reqs;
    AppendSplit(a[..off], r.slots + a[off + |reqs|..]);
    AppendAssoc(a[..off], r.slots, a[off + |reqs|..]);
    AppendSplit(a[..off] + r.slots, a[off + |reqs|..]);
  }

  /** Writing v at position p < q of a, seen through the slices the in-place
      run works with. */
  lemma UpdateSlices(a: seq<nat>, p: nat, q: nat, v: nat)
    requires p < q <= |a|
    ensures a[p := v][p + 1 .. q] == a[p .. q][1..]
    ensures a[p := v][..p + 1] == a[..p] + [v]
    ensures a[p := v][q..] == a[q..]
  {
  }

  /** Running the in-place loop over slots [i, i + m) as a batch of its own
      (from its slot j on) and then over the rest of the batch from slot i + m
      is the same as running it over the batch from slot i + j. */
  lemma {:induction false} AllocInPlaceSplit(strategy: AllocStrategy, inv: nat, log: seq<Call>, a: seq<nat>, off: nat,
                                             reqs: seq<AllocRequest>, i: nat, m: nat, j: nat)
    requires off + |reqs| <= |a| && i + m <= |reqs| && j <= m
    ensures var r := AllocInPlace(strategy, inv, log, a, off + i, reqs[i .. i + m], j);
            AllocInPlace(strategy, inv, log, a, off, reqs, i + j) == AllocInPlace(strategy, inv, r.log, r.slots, off, reqs, i + m)
    decreases m - j
  {
    if j < m {
      var part := reqs[i .. i + m];
      assert part[j] == reqs[i + j];
      var step := AllocSlot(strategy, inv, log, a[off + i + j], reqs[i + j]);
      AllocInPlaceSplit(strategy, inv, step.log, a[off + i + j := step.slots[0]], off, reqs, i, m, j + 1);
    }
  }

  /** The in-place run over a whole batch is AllocLoop over the batch's slots,
      spliced back into the array. */
  lemma AllocInPlaceIsAllocLoop(strategy: AllocStrategy, inv: nat, log: seq<Call>, a: seq<nat>, off: nat,
                                reqs: seq<AllocRequest>)
    requires off + |reqs| <= |a|
    ensures var r := AllocLoop(strategy, inv, log, a[off .. off + |reqs|], reqs);
            AllocInPlace(strategy, inv, log, a, off, reqs, 0) == BatchState(Splice(a, off, r.slots), r.log)
  {
    AllocInPlaceFrom(strategy, inv, log, a, off, reqs, 0);
    assert reqs[0..] == reqs;
  }

  /** address_allocator_traits_base<A, false>::multi_alloc_addr. */
  method DefaultMultiAllocAddr(alloc: AddressAllocator, count: nat, out: Ptr, bytes: Ptr, alignment: Ptr, hint: Option<Ptr>)
    requires Spans(out, count) && Spans(bytes, count) && Spans(alignment, count)
    requires hint.Some? ==> Spans(hint.value, count)
    requires Unaliased(out, bytes, alignment, hint)
    modifies alloc, out.arr
    ensures var r := AllocInPlace(alloc.strategy, alloc.Invalid(), old(alloc.log), old(out.arr[..]), out.off,
                                  old(ChunkRequests(bytes, alignment, hint, count)), 0);
            out.arr[..] == r.slots && alloc.log == r.log
  {
    ghost var reqs := ChunkRequests(bytes, alignment, hint, count);
    ghost var goal := AllocInPlace(alloc.strategy, alloc.Invalid(), alloc.log, out.arr[..], out.off, reqs, 0);
    var i := 0;
    while i < count
      invariant 0 <= i <= count
      invariant reqs == ChunkRequests(bytes, alignment, hint, count)
      invariant AllocInPlace(alloc.strategy, alloc.Invalid(), alloc.log, out.arr[..], out.off, reqs, i) == goal
    {
      ghost var a, log := out.arr[..], alloc.log;
      AllocSlotInPlace(alloc, count, out, i, bytes, alignment, hint, reqs);
      AllocInPlaceStep(alloc.strategy, alloc.Invalid(), log, a, out.off, reqs, i);
      i := i + 1;
    }
  }

  /** The in-place run at slot i: AllocSlot on that slot, then the run from slot i + 1. */
  lemma AllocInPlaceStep(strategy: AllocStrategy, inv: nat, log: seq<Call>, a: seq<nat>, off: nat, reqs: seq<AllocRequest>, i: nat)
    requires off + |reqs| <= |a| && i < |reqs|
    ensures var step := AllocSlot(strategy, inv, log, a[off + i], reqs[i]);
            AllocInPlace(strategy, inv, log, a, off, reqs, i)
            == AllocInPlace(strategy, inv, step.log, a[off + i := step.slots[0]], off, reqs, i + 1)
  {
  }

  /** One pass of the loop body of the default batched allocate, at slot i. */
  method AllocSlotInPlace(alloc: AddressAllocator, count: nat, out: Ptr, i: nat, bytes: Ptr, alignment: Ptr, hint: Option<Ptr>,
                          ghost reqs: seq<AllocRequest>)
    requires Spans(out, count) && Spans(bytes, count) && Spans(alignment, count)
    requires hint.Some? ==> Spans(hint.value, count)
    requires Unaliased(out, bytes, alignment, hint)
    requires i < count && reqs == ChunkRequests(bytes, alignment, hint, count)
    modifies alloc, out.arr
    ensures var step := AllocSlot(alloc.strategy, alloc.Invalid(), old(alloc.log), old(out.arr[out.off + i]), reqs[i]);
            out.arr[..] == old(out.arr[..])[out.off + i := step.slots[0]] && alloc.log == step.log
    ensures reqs == ChunkRequests(bytes, alignment, hint, count)
  {
    ChunkRequestsAt(bytes, alignment, hint, count);
    if out.arr[out.off + i] == alloc.Invalid() {
      var h := if hint.Some? then hint.value.arr[hint.value.off + i] else 0;
      var a := alloc.AllocAddr(bytes.arr[bytes.off + i], alignment.arr[alignment.off + i], h);
      out.arr[out.off + i] := a;
    }
  }

  // ---------------------------------------------------------------------------
  // Default multi_free_addr

  /** The single-item frees the default batched free makes, in order: one per
      address that is not the sentinel. */
  function FreeLoop(inv: nat, addrs: seq<nat>, sizes: seq<nat>): (calls: seq<Call>)
    requires |sizes| == |addrs|
    ensures |calls| <= |addrs|
    decreases |addrs|
  {
    if |addrs| == 0 then []
    else (if addrs[0] == inv then [] else [Free(addrs[0], sizes[0])]) + FreeLoop(inv, addrs[1..], sizes[1..])
  }

  /** One free per non-sentinel address, and nothing but frees of
      non-sentinel addresses. */
  lemma {:induction false} FreeLoopCallCount(inv: nat, addrs: seq<nat>, sizes: seq<nat>)
    requires |sizes| == |addrs|
    ensures var calls := FreeLoop(inv, addrs, sizes);
            |calls| + Occurrences(addrs, inv) == |addrs| &&
            forall k :: 0 <= k < |calls| ==> calls[k].Free? && calls[k].addr != inv
    decreases |addrs|
  {
    if |addrs| > 0 {
      FreeLoopCallCount(inv, addrs[1..], sizes[1..]);
    }
  }

  /** A non-sentinel address at slot j is freed by call number
      j - (sentinels before j), with the size given for slot j. */
  lemma {:induction false} FreeLoopSlotCall(inv: nat, addrs: seq<nat>, sizes: seq<nat>, j: nat)
    requires |sizes| == |addrs| && j < |addrs| && addrs[j] != inv
    ensures var calls := FreeLoop(inv, addrs, sizes);
            var c := j - Occurrences(addrs[..j], inv);
            0 <= c < |calls| && calls[c] == Free(addrs[j], sizes[j])
    decreases |addrs|
  {
    var head := if addrs[0] == inv then [] else [Free(addrs[0], sizes[0])];
    var tail := FreeLoop(inv, addrs[1..], sizes[1..]);
    if j == 0 {
      assert addrs[..0] == [];
    } else {
      assert addrs[..j] == [addrs[0]] + addrs[1..][..j - 1];
      FreeLoopSlotCall(inv, addrs[1..], sizes[1..], j - 1);
      assert j - Occurrences(addrs[..j], inv) == |head| + (j - 1 - Occurrences(addrs[1..][..j - 1], inv));
    }
  }

  /** A prefix that reaches past an entry other than v has more entries other than v. */
  lemma OthersPrefixGrows(s: seq<nat>, v: nat, j1: nat, j2: nat)
    requires j1 < j2 <= |s| && s[j1] != v
    ensures j1 - Occurrences(s[..j1], v) < j2 - Occurrences(s[..j2], v)
  {
    assert s[..j2] == s[..j1] + s[j1..j2];
    OccurrencesAppend(s[..j1], s[j1..j2], v);
    assert s[j1..j2] == [s[j1]] + s[j1 + 1..j2];
  }

  /** Frees are made in increasing slot order: of two non-sentinel addresses
      at slots j1 < j2, the one at j1 is freed by an earlier call. */
  lemma FreeCallsInSlotOrder(inv: nat, addrs: seq<nat>, sizes: seq<nat>, j1: nat, j2: nat)
    requires |sizes| == |addrs| && j1 < j2 < |addrs| && addrs[j1] != inv && addrs[j2] != inv
    ensures var calls := FreeLoop(inv, addrs, sizes);
            var c1, c2 := j1 - Occurrences(addrs[..j1], inv), j2 - Occurrences(addrs[..j2], inv);
            0 <= c1 < c2 < |calls| &&
            calls[c1] == Free(addrs[j1], sizes[j1]) && calls[c2] == Free(addrs[j2], sizes[j2])
  {
    FreeLoopSlotCall(inv, addrs, sizes, j1);
    FreeLoopSlotCall(inv, addrs, sizes, j2);
    OthersPrefixGrows(addrs, inv, j1, j2);
  }

  lemma {:induction false} FreeLoopAppend(inv: nat, a: seq<nat>, sa: seq<nat>, b: seq<nat>, sb: seq<nat>)
    requires |sa| == |a| && |sb| == |b|
    ensures FreeLoop(inv, a + b, sa + sb) == FreeLoop(inv, a, sa) + FreeLoop(inv, b, sb)
    decreases |a|
  {
    if |a| == 0 {
      assert a + b == b && sa + sb == sb;
    } else {
      var h := if a[0] == inv then [] else [Free(a[0], sa[0])];
      assert (a + b)[0] == a[0] && (sa + sb)[0] == sa[0];
      assert (a + b)[1..] == a[1..] + b;
      assert (sa + sb)[1..] == sa[1..] + sb;
      FreeLoopAppend(inv, a[1..], sa[1..], b, sb);
      assert FreeLoop(inv, a + b, sa + sb) == h + (FreeLoop(inv, a[1..], sa[1..]) + FreeLoop(inv, b, sb));
    }
  }

  /** address_allocator_traits_base<A, false>::multi_free_addr. The address
      array is only read. */
  method DefaultMultiFreeAddr(alloc: AddressAllocator, count: nat, addr: Ptr, bytes: Ptr)
    requires Spans(addr, count) && Spans(bytes, count)
    modifies alloc
    ensures alloc.log == old(alloc.log) + FreeLoop(alloc.Invalid(), Slice(addr, count), Slice(bytes, count))
  {
    ghost var a0 := Slice(addr, count);
    ghost var b0 := Slice(bytes, count);
    var i := 0;
    while i < count
      invariant 0 <= i <= count
      invariant alloc.log == old(alloc.log) + FreeLoop(alloc.Invalid(), a0[..i], b0[..i])
    {
      FreeLoopPrefixStep(alloc.Invalid(), a0, b0, i);
      ghost var log0 := alloc.log;
      if addr.arr[addr.off + i] != alloc.Invalid() {
        alloc.FreeAddr(addr.arr[addr.off + i], bytes.arr[bytes.off + i]);
      }
      assert alloc.log == log0 + (if a0[i] == alloc.Invalid() then [] else [Free(a0[i], b0[i])]);
      i := i + 1;
    }
    assert a0[..count] == a0 && b0[..count] == b0;
  }

  /** The frees of the first i + 1 slots: those of the first i, then the one of slot i. */
  lemma FreeLoopPrefixStep(inv: nat, a: seq<nat>, s: seq<nat>, i: nat)
    requires |s| == |a| && i < |a|
    ensures FreeLoop(inv, a[..i + 1], s[..i + 1])
            == FreeLoop(inv, a[..i], s[..i]) + (if a[i] == inv then [] else [Free(a[i], s[i])])
  {
    assert a[..i + 1] == a[..i] + [a[i]] && s[..i + 1] == s[..i] + [s[i]];
    FreeLoopAppend(inv, a[..i], s[..i], [a[i]], [s[i]]);
  }

  // ---------------------------------------------------------------------------
  // get_real_addr

  /** address_allocator_traits_base<A, false>::get_real_addr: the identity, for
      every address including the sentinel. */
  function DefaultGetRealAddr(alloc: AddressAllocator, allocatedAddr: nat): (r: nat)
    ensures r == allocatedAddr
  {
    allocatedAddr
  }

  /** address_allocator_traits_base<A, true>::get_real_addr: the allocator's own translation. */
  function ForwardGetRealAddr(alloc: AddressAllocator, allocatedAddr: nat): (r: nat)
    requires alloc.caps.realAddr.Some?
    ensures r == alloc.caps.realAddr.value(allocatedAddr)
  {
    alloc.GetRealAddr(allocatedAddr)
  }

  // ---------------------------------------------------------------------------
  // Forwarding batched operations

  /** address_allocator_traits_base<A, true>::multi_alloc_addr: every argument
      handed unchanged to the allocator's own batched allocate. */
  method ForwardMultiAllocAddr(alloc: AddressAllocator, count: nat, out: Ptr, bytes: Ptr, alignment: Ptr, hint: Option<Ptr>)
    requires alloc.caps.multiAlloc.Some?
    requires Spans(out, count) && Spans(bytes, count) && Spans(alignment, count)
    requires hint.Some? ==> Spans(hint.value, count)
    requires Unaliased(out, bytes, alignment, hint)
    modifies alloc, out.arr
    ensures var r := NativeAlloc(alloc.caps.multiAlloc.value, old(alloc.log), old(out.arr[..])[out.off .. out.off + count],
                                 old(ChunkRequests(bytes, alignment, hint, count)), hint.Some?);
            out.arr[..] == Splice(old(out.arr[..]), out.off, r.slots) && alloc.log == r.log
  {
    alloc.MultiAllocAddr(count, out, bytes, alignment, hint);
  }

  /** address_allocator_traits_base<A, true>::multi_free_addr. */
  method ForwardMultiFreeAddr(alloc: AddressAllocator, count: nat, addr: Ptr, bytes: Ptr)
    requires alloc.caps.multiFree
    requires Spans(addr, count) && Spans(bytes, count)
    modifies alloc
    ensures alloc.log == old(alloc.log) + [BatchFree(Slice(addr, count), Slice(bytes, count))]
  {
    alloc.MultiFreeAddr(count, addr, bytes);
  }
}
