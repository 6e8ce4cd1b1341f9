/** What the facade's chunking means for each policy: on the default policy
    the passes are invisible (one default loop over the whole batch has the
    same effect), on a native policy the allocator receives exactly one
    batched call per pass, holding that pass's items. */
module FacadeProperties {
  import opened AddressTypes
  import opened WrappedAllocator
  import opened TraitsBase
  import opened Chunking
  import opened AllocatorTraits

  // ---------------------------------------------------------------------------
  // Default policy: chunking is invisible

  /** The passes cs run as their first pass and then the remaining ones. */
  lemma AllocPassesHead(alloc: AddressAllocator, st: BatchState, off: nat, reqs: seq<AllocRequest>, hinted: bool, cs: seq<Chunk>)
    requires off + |reqs| <= |st.slots| && EndsBy(cs, |reqs|) && |cs| > 0
    ensures EndsBy(cs[1..], |reqs|)
    ensures AllocPasses(alloc, st, off, reqs, hinted, cs) == AllocPasses(alloc, AllocPassEffect(alloc, st, off, reqs, hinted, cs[0]), off, reqs, hinted, cs[1..])
  {
    EndsByTail(cs, |reqs|);
  }

  /** The first default pass from item i runs the in-place loop over items
      [i, i + m) and leaves the passes from i + m. */
  lemma DefaultAllocFirstPass(alloc: AddressAllocator, st: BatchState, off: nat, reqs: seq<AllocRequest>, hinted: bool, c: nat, i: nat, m: nat)
    requires alloc.caps.multiAlloc.None? && c >= 1 && i < |reqs| && off + |reqs| <= |st.slots| && m == Min(|reqs| - i, c)
    ensures EndsBy(ChunksFrom(|reqs|, c, i), |reqs|) && EndsBy(ChunksFrom(|reqs|, c, i + m), |reqs|)
    ensures AllocPasses(alloc, st, off, reqs, hinted, ChunksFrom(|reqs|, c, i))
            == AllocPasses(alloc, AllocInPlace(alloc.strategy, alloc.Invalid(), st.log, st.slots, off + i, reqs[i .. i + m], 0),
                           off, reqs, hinted, ChunksFrom(|reqs|, c, i + m))
  {
    var cs := ChunksFrom(|reqs|, c, i);
    ChunksFromStep(|reqs|, c, i);
    var st1 := AllocInPlace(alloc.strategy, alloc.Invalid(), st.log, st.slots, off + i, reqs[i .. i + m], 0);
    assert AllocPassEffect(alloc, st, off, reqs, hinted, Chunk(i, m)) == st1;
    AllocPassesHead(alloc, st, off, reqs, hinted, cs);
    assert AllocPasses(alloc, st, off, reqs, hinted, cs) == AllocPasses(alloc, st1, off, reqs, hinted, cs[1..]);
  }

  /** If the default passes from item i + m do what the in-place loop does
      from slot i + m, the passes from i do what it does from slot i. */
  lemma DefaultAllocExtend(alloc: AddressAllocator, st: BatchState, off: nat, reqs: seq<AllocRequest>, hinted: bool, c: nat, i: nat, m: nat,
                           st1: BatchState)
    requires alloc.caps.multiAlloc.None? && c >= 1 && i < |reqs| && off + |reqs| <= |st.slots| && m == Min(|reqs| - i, c)
    requires st1 == AllocInPlace(alloc.strategy, alloc.Invalid(), st.log, st.slots, off + i, reqs[i .. i + m], 0)
    requires EndsBy(ChunksFrom(|reqs|, c, i + m), |reqs|)
    requires AllocPasses(alloc, st1, off, reqs, hinted, ChunksFrom(|reqs|, c, i + m))
             == AllocInPlace(alloc.strategy, alloc.Invalid(), st1.log, st1.slots, off, reqs, i + m)
    ensures EndsBy(ChunksFrom(|reqs|, c, i), |reqs|)
    ensures AllocPasses(alloc, st, off, reqs, hinted, ChunksFrom(|reqs|, c, i))
            == AllocInPlace(alloc.strategy, alloc.Invalid(), st.log, st.slots, off, reqs, i)
  {
    DefaultAllocFirstPass(alloc, st, off, reqs, hinted, c, i, m);
    AllocInPlaceSplit(alloc.strategy, alloc.Invalid(), st.log, st.slots, off, reqs, i, m, 0);
  }

  /** From the end of the batch there are no passes and no slots left to fill. */
  lemma DefaultAllocNoPasses(alloc: AddressAllocator, st: BatchState, off: nat, reqs: seq<AllocRequest>, hinted: bool, c: nat)
    requires off + |reqs| <= |st.slots|
    ensures EndsBy(ChunksFrom(|reqs|, c, |reqs|), |reqs|)
    ensures AllocPasses(alloc, st, off, reqs, hinted, ChunksFrom(|reqs|, c, |reqs|))
            == AllocInPlace(alloc.strategy, alloc.Invalid(), st.log, st.slots, off, reqs, |reqs|)
  {
    assert ChunksFrom(|reqs|, c, |reqs|) == [];
  }

  /** The default passes from item i on do what the in-place loop does from slot i on. */
  lemma {:induction false} DefaultAllocPassesFrom(alloc: AddressAllocator, st: BatchState, off: nat, reqs: seq<AllocRequest>, hinted: bool,
                                                  c: nat, i: nat)
    requires alloc.caps.multiAlloc.None? && c >= 1 && i <= |reqs| && off + |reqs| <= |st.slots|
    ensures EndsBy(ChunksFrom(|reqs|, c, i), |reqs|)
    ensures AllocPasses(alloc, st, off, reqs, hinted, ChunksFrom(|reqs|, c, i))
            == AllocInPlace(alloc.strategy, alloc.Invalid(), st.log, st.slots, off, reqs, i)
    decreases |reqs| - i
  {
    if i < |reqs| {
      var m := Min(|reqs| - i, c);
      var st1 := AllocInPlace(alloc.strategy, alloc.Invalid(), st.log, st.slots, off + i, reqs[i .. i + m], 0);
      DefaultAllocPassesFrom(alloc, st1, off, reqs, hinted, c, i + m);
      DefaultAllocExtend(alloc, st, off, reqs, hinted, c, i, m, st1);
    } else {
      DefaultAllocNoPasses(alloc, st, off, reqs, hinted, c);
    }
  }

  /** The facade's batched allocate on the default policy leaves the array and
      the call record exactly as one unchunked default loop over all the slots would. */
  lemma ChunkedDefaultAllocIsOneLoop(alloc: AddressAllocator, st: BatchState, off: nat, reqs: seq<AllocRequest>, hinted: bool)
    requires alloc.caps.multiAlloc.None? && off + |reqs| <= |st.slots|
    requires |reqs| == 0 || MaxMultiOps(alloc.caps) >= 1
    ensures var r := AllocLoop(alloc.strategy, alloc.Invalid(), st.log, st.slots[off .. off + |reqs|], reqs);
            AllocPasses(alloc, st, off, reqs, hinted, Chunks(|reqs|, MaxMultiOps(alloc.caps))) == BatchState(Splice(st.slots, off, r.slots), r.log)
  {
    var c := MaxMultiOps(alloc.caps);
    if c >= 1 {
      DefaultAllocPassesFrom(alloc, st, off, reqs, hinted, c, 0);
    } else {
      assert Chunks(|reqs|, c) == [];
    }
    AllocInPlaceIsAllocLoop(alloc.strategy, alloc.Invalid(), st.log, st.slots, off, reqs);
  }

  /** The passes cs run as their first pass and then the remaining ones. */
  lemma FreePassesHead(alloc: AddressAllocator, log: seq<Call>, addrs: seq<nat>, sizes: seq<nat>, cs: seq<Chunk>)
    requires |sizes| == |addrs| && EndsBy(cs, |addrs|) && |cs| > 0
    ensures EndsBy(cs[1..], |addrs|)
    ensures FreePasses(alloc, log, addrs, sizes, cs) == FreePasses(alloc, FreePassEffect(alloc, log, addrs, sizes, cs[0]), addrs, sizes, cs[1..])
  {
    EndsByTail(cs, |addrs|);
  }

  /** The passes from item i < n: the pass at i with m = min(n - i, c) items,
      then the passes from i + m. */
  lemma ChunksFromStep(n: nat, c: nat, i: nat)
    requires c >= 1 && i < n
    ensures var cs := ChunksFrom(n, c, i);
            EndsBy(cs, n) && |cs| > 0 && cs[0] == Chunk(i, Min(n - i, c)) && cs[1..] == ChunksFrom(n, c, i + Min(n - i, c))
  {
    var cs := ChunksFrom(n, c, i);
    ChunksFromBounds(n, c, i);
    assert cs[0..] == cs;
    ChunksFromNext(cs, 0, n, c, i);
  }

  /** The first default pass from item i frees items [i, i + m) and leaves the passes from i + m. */
  lemma DefaultFreeFirstPass(alloc: AddressAllocator, log: seq<Call>, addrs: seq<nat>, sizes: seq<nat>, c: nat, i: nat, m: nat)
    requires !alloc.caps.multiFree && c >= 1 && i < |addrs| && |sizes| == |addrs| && m == Min(|addrs| - i, c)
    ensures EndsBy(ChunksFrom(|addrs|, c, i), |addrs|) && EndsBy(ChunksFrom(|addrs|, c, i + m), |addrs|)
    ensures FreePasses(alloc, log, addrs, sizes, ChunksFrom(|addrs|, c, i))
            == FreePasses(alloc, log + FreeLoop(alloc.Invalid(), addrs[i .. i + m], sizes[i .. i + m]), addrs, sizes, ChunksFrom(|addrs|, c, i + m))
  {
    var cs := ChunksFrom(|addrs|, c, i);
    ChunksFromStep(|addrs|, c, i);
    var log1 := log + FreeLoop(alloc.Invalid(), addrs[i .. i + m], sizes[i .. i + m]);
    assert FreePassEffect(alloc, log, addrs, sizes, Chunk(i, m)) == log1;
    FreePassesHead(alloc, log, addrs, sizes, cs);
    assert FreePasses(alloc, log, addrs, sizes, cs) == FreePasses(alloc, log1, addrs, sizes, cs[1..]);
  }

  /** A pass appends to whatever log it starts from. */
  lemma FreePassEffectShift(alloc: AddressAllocator, log: seq<Call>, addrs: seq<nat>, sizes: seq<nat>, ch: Chunk)
    requires |sizes| == |addrs| && ch.offset + ch.length <= |addrs|
    ensures FreePassEffect(alloc, log, addrs, sizes, ch) == log + FreePassEffect(alloc, [], addrs, sizes, ch)
  {
    var a := addrs[ch.offset .. ch.offset + ch.length];
    var s := sizes[ch.offset .. ch.offset + ch.length];
    if alloc.caps.multiFree {
      EmptyAppend([BatchFree(a, s)]);
    } else {
      EmptyAppend(FreeLoop(alloc.Invalid(), a, s));
    }
  }

  /** The passes append to whatever log they start from: run after log they
      give log followed by what they give from an empty log. */
  lemma {:induction false} FreePassesShift(alloc: AddressAllocator, log: seq<Call>, addrs: seq<nat>, sizes: seq<nat>, cs: seq<Chunk>)
    requires |sizes| == |addrs| && EndsBy(cs, |addrs|)
    ensures FreePasses(alloc, log, addrs, sizes, cs) == log + FreePasses(alloc, [], addrs, sizes, cs)
    decreases |cs|
  {
    if |cs| > 0 {
      var e := FreePassEffect(alloc, [], addrs, sizes, cs[0]);
      FreePassesHead(alloc, log, addrs, sizes, cs);
      FreePassesHead(alloc, [], addrs, sizes, cs);
      FreePassEffectShift(alloc, log, addrs, sizes, cs[0]);
      FreePassesShift(alloc, log + e, addrs, sizes, cs[1..]);
      FreePassesShift(alloc, e, addrs, sizes, cs[1..]);
      AppendAssoc(log, e, FreePasses(alloc, [], addrs, sizes, cs[1..]));
    } else {
      AppendEmpty(log);
    }
  }

  /** The default passes from item i on, run from an empty log, free what
      one default loop over items [i, n) frees. */
  predicate DefaultFreeOutcome(alloc: AddressAllocator, addrs: seq<nat>, sizes: seq<nat>, c: nat, i: nat)
    requires c >= 1 && i <= |addrs| && |sizes| == |addrs|
  {
    EndsBy(ChunksFrom(|addrs|, c, i), |addrs|) &&
    FreePasses(alloc, [], addrs, sizes, ChunksFrom(|addrs|, c, i)) == FreeLoop(alloc.Invalid(), addrs[i..], sizes[i..])
  }

  /** If the default passes from item i + m keep that promise, so do the passes from i. */
  lemma DefaultFreeExtend(alloc: AddressAllocator, addrs: seq<nat>, sizes: seq<nat>, c: nat, i: nat, m: nat)
    requires !alloc.caps.multiFree && c >= 1 && i < |addrs| && |sizes| == |addrs| && m == Min(|addrs| - i, c)
    requires DefaultFreeOutcome(alloc, addrs, sizes, c, i + m)
    ensures DefaultFreeOutcome(alloc, addrs, sizes, c, i)
  {
    var pass := FreeLoop(alloc.Invalid(), addrs[i .. i + m], sizes[i .. i + m]);
    var rest := FreePasses(alloc, [], addrs, sizes, ChunksFrom(|addrs|, c, i + m));
    DefaultFreeFirstPass(alloc, [], addrs, sizes, c, i, m);
    calc {
      FreePasses(alloc, [], addrs, sizes, ChunksFrom(|addrs|, c, i));
      FreePasses(alloc, [] + pass, addrs, sizes, ChunksFrom(|addrs|, c, i + m));
      { EmptyAppend(pass); }
      FreePasses(alloc, pass, addrs, sizes, ChunksFrom(|addrs|, c, i + m));
      { FreePassesShift(alloc, pass, addrs, sizes, ChunksFrom(|addrs|, c, i + m)); }
      pass + rest;
      pass + FreeLoop(alloc.Invalid(), addrs[i + m..], sizes[i + m..]);
      { FreeLoopSplit(alloc.Invalid(), addrs, sizes, i, m); }
      FreeLoop(alloc.Invalid(), addrs[i..], sizes[i..]);
    }
  }

  /** The default passes from item i on free what one default loop over items [i, n) frees. */
  lemma {:induction false} DefaultFreePassesFrom(alloc: AddressAllocator, addrs: seq<nat>, sizes: seq<nat>, c: nat, i: nat)
    requires !alloc.caps.multiFree && c >= 1 && i <= |addrs| && |sizes| == |addrs|
    ensures DefaultFreeOutcome(alloc, addrs, sizes, c, i)
    decreases |addrs| - i
  {
    if i < |addrs| {
      var m := Min(|addrs| - i, c);
      DefaultFreePassesFrom(alloc, addrs, sizes, c, i + m);
      DefaultFreeExtend(alloc, addrs, sizes, c, i, m);
    } else {
      DefaultFreeNoPasses(alloc, addrs, sizes, c);
    }
  }

  /** From the end of the batch there are no passes and nothing to free. */
  lemma DefaultFreeNoPasses(alloc: AddressAllocator, addrs: seq<nat>, sizes: seq<nat>, c: nat)
    requires c >= 1 && |sizes| == |addrs|
    ensures DefaultFreeOutcome(alloc, addrs, sizes, c, |addrs|)
  {
    FreeLoopEmptyTail(alloc.Invalid(), addrs, sizes, |addrs|);
    assert ChunksFrom(|addrs|, c, |addrs|) == [];
  }

  /** Past the last item the default loop frees nothing. */
  lemma FreeLoopEmptyTail(inv: nat, addrs: seq<nat>, sizes: seq<nat>, n: nat)
    requires |sizes| == |addrs| == n
    ensures FreeLoop(inv, addrs[n..], sizes[n..]) == []
  {
    assert addrs[n..] == [];
  }

  /** The default loop over items [i, n) frees items [i, i + m) first and then the rest. */
  lemma FreeLoopSplit(inv: nat, addrs: seq<nat>, sizes: seq<nat>, i: nat, m: nat)
    requires |sizes| == |addrs| && i + m <= |addrs|
    ensures FreeLoop(inv, addrs[i..], sizes[i..])
            == FreeLoop(inv, addrs[i .. i + m], sizes[i .. i + m]) + FreeLoop(inv, addrs[i + m..], sizes[i + m..])
  {
    assert addrs[i .. i + m] + addrs[i + m..] == addrs[i..];
    assert sizes[i .. i + m] + sizes[i + m..] == sizes[i..];
    FreeLoopAppend(inv, addrs[i .. i + m], sizes[i .. i + m], addrs[i + m..], sizes[i + m..]);
  }

  /** The facade's batched free on the default policy makes exactly the frees
      of one unchunked default loop over all the addresses, in the same order. */
  lemma ChunkedDefaultFreeIsOneLoop(alloc: AddressAllocator, log: seq<Call>, addrs: seq<nat>, sizes: seq<nat>)
    requires !alloc.caps.multiFree && |sizes| == |addrs|
    requires |addrs| == 0 || MaxMultiOps(alloc.caps) >= 1
    ensures FreePasses(alloc, log, addrs, sizes, Chunks(|addrs|, MaxMultiOps(alloc.caps)))
            == log + FreeLoop(alloc.Invalid(), addrs, sizes)
  {
    var c := MaxMultiOps(alloc.caps);
    assert addrs[0..] == addrs && sizes[0..] == sizes;
    if c >= 1 {
      DefaultFreePassesFrom(alloc, addrs, sizes, c, 0);
      assert DefaultFreeOutcome(alloc, addrs, sizes, c, 0);
      FreePassesShift(alloc, log, addrs, sizes, Chunks(|addrs|, c));
    } else {
      assert Chunks(|addrs|, c) == [] && addrs == [];
    }
  }

  // ---------------------------------------------------------------------------
  // Native policy: one batched call per pass

  /** The batched frees a native allocator receives for the passes cs: pass k
      hands over its own addresses and sizes. */
  function PassFrees(addrs: seq<nat>, sizes: seq<nat>, cs: seq<Chunk>): (calls: seq<Call>)
    requires |sizes| == |addrs| && EndsBy(cs, |addrs|)
    ensures |calls| == |cs|
  {
    seq(|cs|, k requires 0 <= k < |cs| =>
      BatchFree(addrs[cs[k].offset .. cs[k].offset + cs[k].length], sizes[cs[k].offset .. cs[k].offset + cs[k].length]))
  }

  /** The batched frees of the passes after the first. */
  lemma PassFreesTail(addrs: seq<nat>, sizes: seq<nat>, cs: seq<Chunk>)
    requires |sizes| == |addrs| && EndsBy(cs, |addrs|) && |cs| > 0
    ensures EndsBy(cs[1..], |addrs|)
    ensures PassFrees(addrs, sizes, cs)[1..] == PassFrees(addrs, sizes, cs[1..])
  {
    EndsByTail(cs, |addrs|);
  }

  /** On the native policy each pass appends one batched free of its own items. */
  lemma {:induction false} NativeFreePasses(alloc: AddressAllocator, log: seq<Call>, addrs: seq<nat>, sizes: seq<nat>, cs: seq<Chunk>)
    requires alloc.caps.multiFree && |sizes| == |addrs| && EndsBy(cs, |addrs|)
    ensures FreePasses(alloc, log, addrs, sizes, cs) == log + PassFrees(addrs, sizes, cs)
    decreases |cs|
  {
    var calls := PassFrees(addrs, sizes, cs);
    if |cs| > 0 {
      FreePassesHead(alloc, log, addrs, sizes, cs);
      PassFreesTail(addrs, sizes, cs);
      assert FreePassEffect(alloc, log, addrs, sizes, cs[0]) == log + [calls[0]];
      NativeFreePasses(alloc, log + [calls[0]], addrs, sizes, cs[1..]);
      ConsTail(calls);
      AppendAssoc(log, [calls[0]], calls[1..]);
    } else {
      assert calls == [];
      AppendEmpty(log);
    }
  }

  /** calls are ceil(n / c) batched frees over the n addresses, the k-th
      holding items [k * c, k * c + min(n - k * c, c)). */
  predicate StridedFrees(calls: seq<Call>, addrs: seq<nat>, sizes: seq<nat>, c: nat)
    requires |sizes| == |addrs|
  {
    (|calls| - 1) * c < |addrs| <= |calls| * c &&
    forall k :: 0 <= k < |calls| ==>
      k * c < |addrs| &&
      calls[k] == BatchFree(addrs[k * c .. k * c + Min(|addrs| - k * c, c)], sizes[k * c .. k * c + Min(|addrs| - k * c, c)])
  }

  /** The facade's batched free on the native policy appends exactly the
      batched frees of consecutive runs of maxMultiOps addresses. */
  lemma ChunkedNativeFree(alloc: AddressAllocator, log: seq<Call>, addrs: seq<nat>, sizes: seq<nat>)
    requires alloc.caps.multiFree && |sizes| == |addrs| && MaxMultiOps(alloc.caps) >= 1
    ensures var r := FreePasses(alloc, log, addrs, sizes, Chunks(|addrs|, MaxMultiOps(alloc.caps)));
            |log| <= |r| && r[..|log|] == log && StridedFrees(r[|log|..], addrs, sizes, MaxMultiOps(alloc.caps))
  {
    var cs := Chunks(|addrs|, MaxMultiOps(alloc.caps));
    NativeFreePasses(alloc, log, addrs, sizes, cs);
    StridedPassFrees(addrs, sizes, MaxMultiOps(alloc.caps));
    AppendSplit(log, PassFrees(addrs, sizes, cs));
  }

  /** The batched frees of the passes over n items with step c are strided. */
  lemma StridedPassFrees(addrs: seq<nat>, sizes: seq<nat>, c: nat)
    requires |sizes| == |addrs| && c >= 1
    ensures EndsBy(Chunks(|addrs|, c), |addrs|)
    ensures StridedFrees(PassFrees(addrs, sizes, Chunks(|addrs|, c)), addrs, sizes, c)
  {
    var cs := Chunks(|addrs|, c);
    var calls := PassFrees(addrs, sizes, cs);
    ChunksShape(|addrs|, c);
    forall k | 0 <= k < |calls|
      ensures calls[k] == BatchFree(addrs[k * c .. k * c + Min(|addrs| - k * c, c)], sizes[k * c .. k * c + Min(|addrs| - k * c, c)])
    {
      assert cs[k] == Chunk(k * c, Min(|addrs| - k * c, c));
    }
  }

  /** Ten addresses freed through the facade with maxMultiOps 4 reach a
      native allocator as three batches of 4, 4 and 2. */
  lemma TenFreesInThreeBatches(alloc: AddressAllocator, log: seq<Call>, addrs: seq<nat>, sizes: seq<nat>)
    requires alloc.caps.multiFree && MaxMultiOps(alloc.caps) == 4 && |addrs| == 10 && |sizes| == 10
    ensures FreePasses(alloc, log, addrs, sizes, Chunks(10, 4))
            == log + [BatchFree(addrs[0..4], sizes[0..4]), BatchFree(addrs[4..8], sizes[4..8]), BatchFree(addrs[8..10], sizes[8..10])]
  {
    TenItemsInPassesOfFour();
    NativeFreePasses(alloc, log, addrs, sizes, Chunks(10, 4));
  }

  /** The batched allocations a native allocator receives for the passes from
      item i on: each pass hands over its slots as they were on entry and its requests. */
  function PassAllocs(slots: seq<nat>, off: nat, reqs: seq<AllocRequest>, hinted: bool, cs: seq<Chunk>): (calls: seq<Call>)
    requires EndsBy(cs, |reqs|) && off + |reqs| <= |slots|
    ensures |calls| == |cs|
  {
    seq(|cs|, k requires 0 <= k < |cs| =>
      BatchAlloc(slots[off + cs[k].offset .. off + cs[k].offset + cs[k].length], reqs[cs[k].offset .. cs[k].offset + cs[k].length], hinted))
  }

  /** Passes that only touch items from i on see the same slots in two arrays
      that agree from slot off + i on. */
  lemma PassAllocsAgree(s1: seq<nat>, s2: seq<nat>, off: nat, reqs: seq<AllocRequest>, hinted: bool, cs: seq<Chunk>, i: nat, c: nat)
    requires Within(cs, i, |reqs|, c) && i <= |reqs| && off + |reqs| <= |s1| == |s2|
    requires s1[off + i..] == s2[off + i..]
    ensures PassAllocs(s1, off, reqs, hinted, cs) == PassAllocs(s2, off, reqs, hinted, cs)
  {
    forall k | 0 <= k < |cs|
      ensures s1[off + cs[k].offset .. off + cs[k].offset + cs[k].length] == s2[off + cs[k].offset .. off + cs[k].offset + cs[k].length]
    {
      var lo, hi := off + cs[k].offset - (off + i), off + cs[k].offset + cs[k].length - (off + i);
      assert s1[off + cs[k].offset .. off + cs[k].offset + cs[k].length] == s1[off + i..][lo .. hi];
      assert s2[off + cs[k].offset .. off + cs[k].offset + cs[k].length] == s2[off + i..][lo .. hi];
    }
  }

  /** The batched allocations of the passes after the first. */
  lemma PassAllocsTail(slots: seq<nat>, off: nat, reqs: seq<AllocRequest>, hinted: bool, cs: seq<Chunk>)
    requires EndsBy(cs, |reqs|) && off + |reqs| <= |slots| && |cs| > 0
    ensures EndsBy(cs[1..], |reqs|)
    ensures PassAllocs(slots, off, reqs, hinted, cs)[1..] == PassAllocs(slots, off, reqs, hinted, cs[1..])
  {
    EndsByTail(cs, |reqs|);
  }

  /** st1 is st after one native pass over items [i, i + m): one batched
      allocation of the pass's slots and requests is recorded, the pass's slots
      hold the native answers, and no other slot changes. */
  predicate NativePassStep(strategy: BatchStrategy, st: BatchState, st1: BatchState, off: nat, reqs: seq<AllocRequest>, hinted: bool, i: nat, m: nat)
    requires off + |reqs| <= |st.slots| && i + m <= |reqs|
  {
    |st1.slots| == |st.slots| &&
    st1.log == st.log + [BatchAlloc(st.slots[off + i .. off + i + m], reqs[i .. i + m], hinted)] &&
    st1.slots[off + i .. off + i + m] == NativeAlloc(strategy, st.log, st.slots[off + i .. off + i + m], reqs[i .. i + m], hinted).slots &&
    st1.slots[..off + i] == st.slots[..off + i] && st1.slots[off + i + m..] == st.slots[off + i + m..]
  }

  /** A pass on the native policy records one batched allocation of its slots
      and requests, writes the native answers into its own slots, and changes
      no slot outside them. */
  lemma NativePassEffect(alloc: AddressAllocator, st: BatchState, off: nat, reqs: seq<AllocRequest>, hinted: bool, ch: Chunk)
    requires alloc.caps.multiAlloc.Some? && off + |reqs| <= |st.slots| && ch.offset + ch.length <= |reqs|
    ensures NativePassStep(alloc.caps.multiAlloc.value, st, AllocPassEffect(alloc, st, off, reqs, hinted, ch), off, reqs, hinted, ch.offset, ch.length)
  {
    var lo, hi := off + ch.offset, off + ch.offset + ch.length;
    var r := NativeAlloc(alloc.caps.multiAlloc.value, st.log, st.slots[lo .. hi], reqs[ch.offset .. ch.offset + ch.length], hinted);
    SpliceSlice(st.slots, lo, r.slots);
  }

  /** The first native pass from item i runs on its own and leaves the passes from i + m. */
  lemma NativeAllocFirstPass(alloc: AddressAllocator, st: BatchState, off: nat, reqs: seq<AllocRequest>, hinted: bool, c: nat, i: nat, m: nat)
    requires alloc.caps.multiAlloc.Some? && c >= 1 && i < |reqs| && off + |reqs| <= |st.slots| && m == Min(|reqs| - i, c)
    ensures EndsBy(ChunksFrom(|reqs|, c, i), |reqs|) && EndsBy(ChunksFrom(|reqs|, c, i + m), |reqs|)
    ensures AllocPasses(alloc, st, off, reqs, hinted, ChunksFrom(|reqs|, c, i))
            == AllocPasses(alloc, AllocPassEffect(alloc, st, off, reqs, hinted, Chunk(i, m)), off, reqs, hinted, ChunksFrom(|reqs|, c, i + m))
  {
    ChunksFromStep(|reqs|, c, i);
    AllocPassesHead(alloc, st, off, reqs, hinted, ChunksFrom(|reqs|, c, i));
  }

  /** The batched allocations of the passes from item i: the pass at i hands
      over slots [i, i + m), then come those of the passes from i + m. */
  lemma PassAllocsStep(slots: seq<nat>, off: nat, reqs: seq<AllocRequest>, hinted: bool, c: nat, i: nat, m: nat)
    requires c >= 1 && i < |reqs| && off + |reqs| <= |slots| && m == Min(|reqs| - i, c)
    ensures EndsBy(ChunksFrom(|reqs|, c, i), |reqs|) && EndsBy(ChunksFrom(|reqs|, c, i + m), |reqs|)
    ensures PassAllocs(slots, off, reqs, hinted, ChunksFrom(|reqs|, c, i))
            == [BatchAlloc(slots[off + i .. off + i + m], reqs[i .. i + m], hinted)] + PassAllocs(slots, off, reqs, hinted, ChunksFrom(|reqs|, c, i + m))
  {
    var cs := ChunksFrom(|reqs|, c, i);
    ChunksFromStep(|reqs|, c, i);
    PassAllocsTail(slots, off, reqs, hinted, cs);
    ConsTail(PassAllocs(slots, off, reqs, hinted, cs));
  }

  /** The log half of extending the native outcome by one pass: a log that is
      the log after the pass at i followed by the later passes' allocations
      is the log before it followed by the allocations of every pass from i. */
  lemma NativeLogStep(s: seq<nat>, s1: seq<nat>, log: seq<Call>, log1: seq<Call>, rlog: seq<Call>,
                      off: nat, reqs: seq<AllocRequest>, hinted: bool, c: nat, i: nat, m: nat)
    requires c >= 1 && i < |reqs| && off + |reqs| <= |s| == |s1| && m == Min(|reqs| - i, c)
    requires log1 == log + [BatchAlloc(s[off + i .. off + i + m], reqs[i .. i + m], hinted)]
    requires s1[off + i + m..] == s[off + i + m..]
    requires EndsBy(ChunksFrom(|reqs|, c, i + m), |reqs|)
    requires rlog == log1 + PassAllocs(s1, off, reqs, hinted, ChunksFrom(|reqs|, c, i + m))
    ensures EndsBy(ChunksFrom(|reqs|, c, i), |reqs|)
    ensures rlog == log + PassAllocs(s, off, reqs, hinted, ChunksFrom(|reqs|, c, i))
  {
    var rest := ChunksFrom(|reqs|, c, i + m);
    PassAllocsStep(s, off, reqs, hinted, c, i, m);
    ChunksFromBounds(|reqs|, c, i + m);
    PassAllocsAgree(s1, s, off, reqs, hinted, rest, i + m, c);
    AppendAssoc(log, [BatchAlloc(s[off + i .. off + i + m], reqs[i .. i + m], hinted)], PassAllocs(s, off, reqs, hinted, rest));
  }

  /** The slot half: a pass that keeps everything outside [lo, hi), followed
      by passes that keep everything before hi and from end on, keeps
      everything before lo and from end on. */
  lemma KeptSlotsStep(s: seq<nat>, s1: seq<nat>, r: seq<nat>, lo: nat, hi: nat, end: nat)
    requires lo <= hi <= end <= |s| && |s1| == |s| && |r| == |s|
    requires s1[..lo] == s[..lo] && s1[hi..] == s[hi..]
    requires r[..hi] == s1[..hi] && r[end..] == s1[end..]
    ensures r[..lo] == s[..lo] && r[end..] == s[end..]
  {
    PrefixAgree(r, s1, lo, hi);
    SuffixAgree(s1, s, hi, end);
  }

  /** The pass ch wrote into its own slots of r exactly the native answers,
      given the history hist, to the slots it was handed in slots. */
  predicate PassAnswered(strategy: BatchStrategy, hist: seq<Call>, slots: seq<nat>, r: seq<nat>, off: nat,
                         reqs: seq<AllocRequest>, hinted: bool, ch: Chunk)
    requires ch.offset + ch.length <= |reqs| && off + |reqs| <= |slots| && |r| == |slots|
  {
    var lo, hi := off + ch.offset, off + ch.offset + ch.length;
    r[lo .. hi] == NativeAlloc(strategy, hist, slots[lo .. hi], reqs[ch.offset .. ch.offset + ch.length], hinted).slots
  }

  /** Every pass of cs answered into its own slots of r, given the history log
      followed by the batched allocations of the passes before it. */
  predicate SlotsAnswered(strategy: BatchStrategy, log: seq<Call>, slots: seq<nat>, r: seq<nat>, off: nat,
                          reqs: seq<AllocRequest>, hinted: bool, cs: seq<Chunk>)
    requires EndsBy(cs, |reqs|) && off + |reqs| <= |slots| && |r| == |slots|
  {
    forall k :: 0 <= k < |cs| ==>
      PassAnswered(strategy, log + PassAllocs(slots, off, reqs, hinted, cs)[..k], slots, r, off, reqs, hinted, cs[k])
  }

  /** SlotsAnswered, written out pass by pass. */
  lemma SlotsAnsweredEach(strategy: BatchStrategy, log: seq<Call>, slots: seq<nat>, r: seq<nat>, off: nat,
                          reqs: seq<AllocRequest>, hinted: bool, cs: seq<Chunk>)
    requires EndsBy(cs, |reqs|) && off + |reqs| <= |slots| && |r| == |slots|
    requires SlotsAnswered(strategy, log, slots, r, off, reqs, hinted, cs)
    ensures forall k :: 0 <= k < |cs| ==>
              r[off + cs[k].offset .. off + cs[k].offset + cs[k].length]
              == NativeAlloc(strategy, log + PassAllocs(slots, off, reqs, hinted, cs)[..k],
                             slots[off + cs[k].offset .. off + cs[k].offset + cs[k].length],
                             reqs[cs[k].offset .. cs[k].offset + cs[k].length], hinted).slots
  {
    forall k | 0 <= k < |cs|
      ensures r[off + cs[k].offset .. off + cs[k].offset + cs[k].length]
              == NativeAlloc(strategy, log + PassAllocs(slots, off, reqs, hinted, cs)[..k],
                             slots[off + cs[k].offset .. off + cs[k].offset + cs[k].length],
                             reqs[cs[k].offset .. cs[k].offset + cs[k].length], hinted).slots
    {
      assert PassAnswered(strategy, log + PassAllocs(slots, off, reqs, hinted, cs)[..k], slots, r, off, reqs, hinted, cs[k]);
    }
  }

  /** Every native pass from item i on answered into its own slots of r. */
  predicate NativeSlotsOf(strategy: BatchStrategy, st: BatchState, r: BatchState, off: nat, reqs: seq<AllocRequest>, hinted: bool, c: nat, i: nat)
    requires c >= 1 && i <= |reqs| && off + |reqs| <= |st.slots| && |r.slots| == |st.slots|
  {
    EndsBy(ChunksFrom(|reqs|, c, i), |reqs|) &&
    SlotsAnswered(strategy, st.log, st.slots, r.slots, off, reqs, hinted, ChunksFrom(|reqs|, c, i))
  }

  /** The first pass from item i answered into slots [i, i + m) of st1, and
      the later passes keep them: so it answered into them in r. */
  lemma PassAnsweredFirst(strategy: BatchStrategy, st: BatchState, st1: BatchState, r: BatchState, off: nat,
                          reqs: seq<AllocRequest>, hinted: bool, c: nat, i: nat, m: nat)
    requires c >= 1 && i < |reqs| && off + |reqs| <= |st.slots| && m == Min(|reqs| - i, c)
    requires |st1.slots| == |st.slots| && |r.slots| == |st.slots|
    requires st1.slots[off + i .. off + i + m] == NativeAlloc(strategy, st.log, st.slots[off + i .. off + i + m], reqs[i .. i + m], hinted).slots
    requires r.slots[..off + i + m] == st1.slots[..off + i + m]
    ensures PassAnswered(strategy, st.log, st.slots, r.slots, off, reqs, hinted, Chunk(i, m))
  {
    PrefixSliceAgree(r.slots, st1.slots, off + i + m, off + i, off + i + m);
  }

  /** A pass that starts at or after item p answers the same in two arrays
      that agree from slot off + p on. */
  lemma PassAnsweredAgree(strategy: BatchStrategy, hist: seq<Call>, s1: seq<nat>, s2: seq<nat>, r: seq<nat>, off: nat,
                          reqs: seq<AllocRequest>, hinted: bool, ch: Chunk, p: nat)
    requires ch.offset + ch.length <= |reqs| && off + |reqs| <= |s1| == |s2| && |r| == |s1|
    requires p <= ch.offset && s1[off + p..] == s2[off + p..]
    requires PassAnswered(strategy, hist, s1, r, off, reqs, hinted, ch)
    ensures PassAnswered(strategy, hist, s2, r, off, reqs, hinted, ch)
  {
    SuffixSliceAgree(s1, s2, off + p, off + ch.offset, off + ch.offset + ch.length);
  }

  /** The history before pass k of the passes from i, seen from the state after
      the first pass, is the history before pass k - 1 of the passes from i + m. */
  lemma LaterHistory(s: seq<nat>, s1: seq<nat>, log: seq<Call>, log1: seq<Call>, off: nat, reqs: seq<AllocRequest>, hinted: bool,
                     cs: seq<Chunk>, rest: seq<Chunk>, first: Call, p: nat, c: nat, k: nat)
    requires EndsBy(cs, |reqs|) && EndsBy(rest, |reqs|) && off + |reqs| <= |s| == |s1|
    requires PassAllocs(s, off, reqs, hinted, cs) == [first] + PassAllocs(s, off, reqs, hinted, rest)
    requires Within(rest, p, |reqs|, c) && p <= |reqs| && s1[off + p..] == s[off + p..]
    requires log1 == log + [first] && 1 <= k <= |cs|
    ensures log1 + PassAllocs(s1, off, reqs, hinted, rest)[..k - 1] == log + PassAllocs(s, off, reqs, hinted, cs)[..k]
  {
    PassAllocsAgree(s1, s, off, reqs, hinted, rest, p, c);
    HistoryShift(log, first, PassAllocs(s, off, reqs, hinted, rest), PassAllocs(s, off, reqs, hinted, cs), k);
  }

  /** Pass k of cs, which is pass k - 1 of rest, answered as promised from the
      state after the first pass: so it answered as promised from the state before. */
  lemma PassAnsweredLater(strategy: BatchStrategy, s: seq<nat>, s1: seq<nat>, rs: seq<nat>, log: seq<Call>, log1: seq<Call>,
                          off: nat, reqs: seq<AllocRequest>, hinted: bool, cs: seq<Chunk>, rest: seq<Chunk>, first: Call, p: nat, c: nat, k: nat)
    requires EndsBy(cs, |reqs|) && EndsBy(rest, |reqs|) && off + |reqs| <= |s| && |s1| == |s| && |rs| == |s|
    requires 1 <= k < |cs| && |cs| == |rest| + 1 && cs[k] == rest[k - 1]
    requires PassAllocs(s, off, reqs, hinted, cs) == [first] + PassAllocs(s, off, reqs, hinted, rest)
    requires Within(rest, p, |reqs|, c) && p <= |reqs| && s1[off + p..] == s[off + p..]
    requires log1 == log + [first]
    requires PassAnswered(strategy, log1 + PassAllocs(s1, off, reqs, hinted, rest)[..k - 1], s1, rs, off, reqs, hinted, rest[k - 1])
    ensures PassAnswered(strategy, log + PassAllocs(s, off, reqs, hinted, cs)[..k], s, rs, off, reqs, hinted, cs[k])
  {
    LaterHistory(s, s1, log, log1, off, reqs, hinted, cs, rest, first, p, c, k);
    PassAnsweredAgree(strategy, log + PassAllocs(s, off, reqs, hinted, cs)[..k], s1, s, rs, off, reqs, hinted, cs[k], p);
  }

  /** If the first pass of cs answered from log and the rest, run after it,
      answered from log1, then every pass of cs answered from log. */
  lemma SlotsAnsweredCons(strategy: BatchStrategy, s: seq<nat>, s1: seq<nat>, rs: seq<nat>, log: seq<Call>, log1: seq<Call>,
                          off: nat, reqs: seq<AllocRequest>, hinted: bool, cs: seq<Chunk>, rest: seq<Chunk>, first: Call, p: nat, c: nat)
    requires EndsBy(cs, |reqs|) && EndsBy(rest, |reqs|) && off + |reqs| <= |s| && |s1| == |s| && |rs| == |s|
    requires |cs| == |rest| + 1 && cs[1..] == rest
    requires PassAllocs(s, off, reqs, hinted, cs) == [first] + PassAllocs(s, off, reqs, hinted, rest)
    requires Within(rest, p, |reqs|, c) && p <= |reqs| && s1[off + p..] == s[off + p..]
    requires log1 == log + [first]
    requires PassAnswered(strategy, log, s, rs, off, reqs, hinted, cs[0])
    requires SlotsAnswered(strategy, log1, s1, rs, off, reqs, hinted, rest)
    ensures SlotsAnswered(strategy, log, s, rs, off, reqs, hinted, cs)
  {
    forall k | 0 <= k < |cs|
      ensures PassAnswered(strategy, log + PassAllocs(s, off, reqs, hinted, cs)[..k], s, rs, off, reqs, hinted, cs[k])
    {
      if k == 0 {
        AppendEmpty(log);
      } else {
        assert cs[k] == rest[k - 1];
        PassAnsweredLater(strategy, s, s1, rs, log, log1, off, reqs, hinted, cs, rest, first, p, c, k);
      }
    }
  }

  /** The passes from item i are the pass at i followed by the passes from
      i + m, and so are the batched allocations they hand over. */
  lemma NativeConsShape(slots: seq<nat>, off: nat, reqs: seq<AllocRequest>, hinted: bool, c: nat, i: nat, m: nat)
    requires c >= 1 && i < |reqs| && off + |reqs| <= |slots| && m == Min(|reqs| - i, c)
    ensures var cs, rest := ChunksFrom(|reqs|, c, i), ChunksFrom(|reqs|, c, i + m);
            EndsBy(cs, |reqs|) && EndsBy(rest, |reqs|) && Within(rest, i + m, |reqs|, c) &&
            |cs| == |rest| + 1 && cs[1..] == rest && cs[0] == Chunk(i, m) &&
            PassAllocs(slots, off, reqs, hinted, cs) == [BatchAlloc(slots[off + i .. off + i + m], reqs[i .. i + m], hinted)] + PassAllocs(slots, off, reqs, hinted, rest)
  {
    ChunksFromStep(|reqs|, c, i);
    ChunksFromBounds(|reqs|, c, i + m);
    PassAllocsStep(slots, off, reqs, hinted, c, i, m);
  }

  /** The slot-contents half of extending the native outcome by one pass. */
  lemma NativeSlotsStep(strategy: BatchStrategy, st: BatchState, st1: BatchState, r: BatchState, off: nat,
                        reqs: seq<AllocRequest>, hinted: bool, c: nat, i: nat, m: nat)
    requires c >= 1 && i < |reqs| && off + |reqs| <= |st.slots| && m == Min(|reqs| - i, c)
    requires NativePassStep(strategy, st, st1, off, reqs, hinted, i, m) && |r.slots| == |st.slots|
    requires r.slots[..off + i + m] == st1.slots[..off + i + m]
    requires NativeSlotsOf(strategy, st1, r, off, reqs, hinted, c, i + m)
    ensures NativeSlotsOf(strategy, st, r, off, reqs, hinted, c, i)
  {
    var cs, rest := ChunksFrom(|reqs|, c, i), ChunksFrom(|reqs|, c, i + m);
    NativeConsShape(st.slots, off, reqs, hinted, c, i, m);
    PassAnsweredFirst(strategy, st, st1, r, off, reqs, hinted, c, i, m);
    SlotsAnsweredCons(strategy, st.slots, st1.slots, r.slots, st.log, st1.log, off, reqs, hinted, cs, rest,
                      BatchAlloc(st.slots[off + i .. off + i + m], reqs[i .. i + m], hinted), i + m, c);
  }

  /** r is what the native passes from item i on promise when run from st:
      one batched allocation per pass, holding the pass's slots as they were
      in st and the pass's requests; each pass's answers in that pass's own
      slots; the slots before item i and after the batch as they were in st. */
  predicate NativeOutcomeOf(strategy: BatchStrategy, st: BatchState, r: BatchState, off: nat, reqs: seq<AllocRequest>, hinted: bool, c: nat, i: nat)
    requires c >= 1 && i <= |reqs| && off + |reqs| <= |st.slots| && |r.slots| == |st.slots|
  {
    EndsBy(ChunksFrom(|reqs|, c, i), |reqs|) &&
    r.log == st.log + PassAllocs(st.slots, off, reqs, hinted, ChunksFrom(|reqs|, c, i)) &&
    NativeSlotsOf(strategy, st, r, off, reqs, hinted, c, i) &&
    r.slots[..off + i] == st.slots[..off + i] && r.slots[off + |reqs|..] == st.slots[off + |reqs|..]
  }

  /** The native passes from item i on, run from st, keep that promise. */
  predicate NativePassesOutcome(alloc: AddressAllocator, st: BatchState, off: nat, reqs: seq<AllocRequest>, hinted: bool, c: nat, i: nat)
    requires alloc.caps.multiAlloc.Some? && c >= 1 && i <= |reqs| && off + |reqs| <= |st.slots|
  {
    EndsBy(ChunksFrom(|reqs|, c, i), |reqs|) &&
    NativeOutcomeOf(alloc.caps.multiAlloc.value, st, AllocPasses(alloc, st, off, reqs, hinted, ChunksFrom(|reqs|, c, i)), off, reqs, hinted, c, i)
  }

  /** A state st1 one native pass after st, at item i with m items, that ends
      in r as promised from item i + m ends in r as promised from item i. */
  lemma NativeOutcomeStep(strategy: BatchStrategy, st: BatchState, st1: BatchState, r: BatchState, off: nat,
                          reqs: seq<AllocRequest>, hinted: bool, c: nat, i: nat, m: nat)
    requires c >= 1 && i < |reqs| && off + |reqs| <= |st.slots| && m == Min(|reqs| - i, c)
    requires NativePassStep(strategy, st, st1, off, reqs, hinted, i, m) && |r.slots| == |st.slots|
    requires NativeOutcomeOf(strategy, st1, r, off, reqs, hinted, c, i + m)
    ensures NativeOutcomeOf(strategy, st, r, off, reqs, hinted, c, i)
  {
    NativeSlotsStep(strategy, st, st1, r, off, reqs, hinted, c, i, m);
    NativeLogStep(st.slots, st1.slots, st.log, st1.log, r.log, off, reqs, hinted, c, i, m);
    KeptSlotsStep(st.slots, st1.slots, r.slots, off + i, off + i + m, off + |reqs|);
  }

  /** If the native passes from item i + m have that outcome from the state
      after the pass at i, the passes from item i have it from the state before. */
  lemma NativeAllocExtend(alloc: AddressAllocator, st: BatchState, off: nat, reqs: seq<AllocRequest>, hinted: bool, c: nat, i: nat, m: nat,
                          st1: BatchState)
    requires alloc.caps.multiAlloc.Some? && c >= 1 && i < |reqs| && off + |reqs| <= |st.slots| && m == Min(|reqs| - i, c)
    requires st1 == AllocPassEffect(alloc, st, off, reqs, hinted, Chunk(i, m))
    requires NativePassesOutcome(alloc, st1, off, reqs, hinted, c, i + m)
    ensures NativePassesOutcome(alloc, st, off, reqs, hinted, c, i)
  {
    var r := AllocPasses(alloc, st1, off, reqs, hinted, ChunksFrom(|reqs|, c, i + m));
    NativeAllocFirstPass(alloc, st, off, reqs, hinted, c, i, m);
    NativePassEffect(alloc, st, off, reqs, hinted, Chunk(i, m));
    NativeOutcomeStep(alloc.caps.multiAlloc.value, st, st1, r, off, reqs, hinted, c, i, m);
  }

  /** From the end of the batch there are no passes and nothing changes. */
  lemma NativeAllocNoPasses(alloc: AddressAllocator, st: BatchState, off: nat, reqs: seq<AllocRequest>, hinted: bool, c: nat)
    requires alloc.caps.multiAlloc.Some? && c >= 1 && off + |reqs| <= |st.slots|
    ensures NativePassesOutcome(alloc, st, off, reqs, hinted, c, |reqs|)
  {
    assert ChunksFrom(|reqs|, c, |reqs|) == [];
    assert PassAllocs(st.slots, off, reqs, hinted, []) == [];
    AppendEmpty(st.log);
  }

  /** On the native policy the passes from item i on append one batched
      allocation per pass, holding the pass's slots as they were before any
      pass ran and the pass's requests, and leave the slots outside those items alone. */
  lemma {:induction false} NativeAllocPassesFrom(alloc: AddressAllocator, st: BatchState, off: nat, reqs: seq<AllocRequest>, hinted: bool,
                                                 c: nat, i: nat)
    requires alloc.caps.multiAlloc.Some? && c >= 1 && i <= |reqs| && off + |reqs| <= |st.slots|
    ensures NativePassesOutcome(alloc, st, off, reqs, hinted, c, i)
    decreases |reqs| - i
  {
    if i < |reqs| {
      var m := Min(|reqs| - i, c);
      var st1 := AllocPassEffect(alloc, st, off, reqs, hinted, Chunk(i, m));
      NativeAllocPassesFrom(alloc, st1, off, reqs, hinted, c, i + m);
      NativeAllocExtend(alloc, st, off, reqs, hinted, c, i, m, st1);
    } else {
      NativeAllocNoPasses(alloc, st, off, reqs, hinted, c);
    }
  }

  /** The facade's batched allocate on the native policy: the allocator
      receives one batched allocation per pass of the chunk loop; pass k's
      answers, given the history of the k passes before it, land in pass k's
      own slots; and the caller's array outside the batch is left alone. */
  lemma ChunkedNativeAlloc(alloc: AddressAllocator, st: BatchState, off: nat, reqs: seq<AllocRequest>, hinted: bool)
    requires alloc.caps.multiAlloc.Some? && off + |reqs| <= |st.slots| && MaxMultiOps(alloc.caps) >= 1
    ensures var cs := Chunks(|reqs|, MaxMultiOps(alloc.caps));
            var r := AllocPasses(alloc, st, off, reqs, hinted, cs);
            r.log == st.log + PassAllocs(st.slots, off, reqs, hinted, cs) &&
            (forall k :: 0 <= k < |cs| ==>
               r.slots[off + cs[k].offset .. off + cs[k].offset + cs[k].length]
               == NativeAlloc(alloc.caps.multiAlloc.value, st.log + PassAllocs(st.slots, off, reqs, hinted, cs)[..k],
                              st.slots[off + cs[k].offset .. off + cs[k].offset + cs[k].length],
                              reqs[cs[k].offset .. cs[k].offset + cs[k].length], hinted).slots) &&
            r.slots[..off] == st.slots[..off] && r.slots[off + |reqs|..] == st.slots[off + |reqs|..]
  {
    var c := MaxMultiOps(alloc.caps);
    var cs := Chunks(|reqs|, c);
    var r := AllocPasses(alloc, st, off, reqs, hinted, cs);
    NativeAllocPassesFrom(alloc, st, off, reqs, hinted, c, 0);
    assert NativePassesOutcome(alloc, st, off, reqs, hinted, c, 0);
    SlotsAnsweredEach(alloc.caps.multiAlloc.value, st.log, st.slots, r.slots, off, reqs, hinted, cs);
  }

  /** Every batched allocation the chunk loop hands a native allocator carries
      the caller's hint pointer or its absence: a null hint reaches every pass
      as null, a hint array reaches every pass as an array. */
  lemma ChunkedNativeAllocHint(alloc: AddressAllocator, st: BatchState, off: nat, reqs: seq<AllocRequest>, hinted: bool)
    requires alloc.caps.multiAlloc.Some? && off + |reqs| <= |st.slots| && MaxMultiOps(alloc.caps) >= 1
    ensures var cs := Chunks(|reqs|, MaxMultiOps(alloc.caps));
            var r := AllocPasses(alloc, st, off, reqs, hinted, cs);
            |r.log| == |st.log| + |cs| &&
            forall j :: |st.log| <= j < |r.log| ==> r.log[j].BatchAlloc? && r.log[j].hinted == hinted
  {
    var cs := Chunks(|reqs|, MaxMultiOps(alloc.caps));
    var r := AllocPasses(alloc, st, off, reqs, hinted, cs);
    ChunkedNativeAlloc(alloc, st, off, reqs, hinted);
    var calls := PassAllocs(st.slots, off, reqs, hinted, cs);
    forall j | |st.log| <= j < |r.log| ensures r.log[j].BatchAlloc? && r.log[j].hinted == hinted {
      assert r.log[j] == calls[j - |st.log|];
    }
  }
}
