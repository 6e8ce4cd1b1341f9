# address_allocator_traits, modelled in Dafny

IrrlichtBAW's `address_allocator_traits<AddressAlloc>` is a facade in front of
an address allocator. An address allocator hands out offsets into a buffer
(`alloc_addr`) and takes them back (`free_addr`). The facade gives every
allocator type the same interface:

- `address_type_traits` defines one "no address" sentinel per address width.
  It is `0xdeadbeef` for 32-bit sizes and `0xdeadbeefBADC0FFE` for 64-bit sizes.
- `impl::address_allocator_traits_base<A, false>` is the default policy, for
  allocators that do not declare a member:
  - the capability constants `supportsArbitraryOrderFrees = true`,
    `maxMultiOps = 256` and `supportsNullBuffer = false`;
  - a batched `multi_alloc_addr`. It loops over the slots and calls
    `alloc_addr` only for slots that still hold the sentinel.
  - a batched `multi_free_addr`. It loops over the addresses and calls
    `free_addr` for each one that is not the sentinel.
  - an identity `get_real_addr`.
- `impl::address_allocator_traits_base<A, true>` is the forwarding policy. It
  hands each call to the allocator's own member.
- The facade picks a policy member by member for `get_real_addr`,
  `multi_alloc_addr` and `multi_free_addr`. `maxMultiOps` is picked locally,
  inside the batched allocate and the batched free (lines 198 and 206). The
  facade's public constants `supportsArbitraryOrderFrees`, `maxMultiOps` and
  `supportsNullBuffer` (lines 172-174) are commented out.
- The facade cuts every batched allocate and free into passes of at most `maxMultiOps` items, `for (i = 0; i < count;
  i += maxMultiOps)`. Each pass covers `min(count - i, maxMultiOps)` items,
  starting at item `i`.

How the files are laid out:

- `address_types.dfy` (module `AddressTypes`): the sentinels, requests, the
  record of calls, and pointers `Ptr(arr, off)` into the caller's arrays.
- `wrapped_allocator.dfy` (module `WrappedAllocator`): the wrapped allocator.
  - It is a class whose `log` field records every call it has served.
  - Its answers are an arbitrary function of that history, so every result
    holds for every allocation strategy.
  - A `Capabilities` value says which optional members the allocator type
    declares.
- `traits_base.dfy` (module `TraitsBase`): the two policies.
  - The default loops are imperative methods over the caller's arrays.
  - Each loop is proved against a recursive specification: `AllocLoop` for
    the allocate loop, `FreeLoop` for the free loop.
- `chunking.dfy` (module `Chunking`): the pass list the facade loop produces.
  The lemmas prove that the passes tile the batch.
- `allocator_traits.dfy` (module `AllocatorTraits`): the facade.
  - Its methods walk the chunk loop over the caller's arrays.
  - They are proved against `AllocPasses` and `FreePasses`, which fold one
    pass after another.
- `facade_properties.dfy` (module `FacadeProperties`): what chunking means on
  each policy.
  - On the default policy, the chunked batch does exactly what one
    unchunked loop over the whole batch does.
  - On the native policy, the allocator receives one batched call per pass,
    with that pass's items. Each call also says whether the caller passed a
    hint array: the source hands a null `hint` on as null (line 201).

## Model

All source paths are relative to the repository root.

| member | source | states |
|---|---|---|
| AddressTypes.InvalidAddress | include/irr/core/alloc/address_allocator_traits.h:16-28 | the 32-bit sentinel is 0xDEADBEEF and the 64-bit one 0xDEADBEEFBADC0FFE, each representable in its width |
| AddressTypes.Advance | include/irr/core/alloc/address_allocator_traits.h:201 | `p + i` points into the same array, i positions further on, and n positions from it are in bounds exactly when i + n positions from p are |
| AddressTypes.AdvanceHint | include/irr/core/alloc/address_allocator_traits.h:201 | `hint ? hint + i : nullptr` is null exactly when the hint is, and otherwise the hint advanced by i |
| AddressTypes.HintSlice | include/irr/core/alloc/address_allocator_traits.h:53 | each of the n hints is hint[k], or 0 when no hint array is given |
| AddressTypes.ChunkRequests | include/irr/core/alloc/address_allocator_traits.h:53 | a batch of n slots makes exactly n requests |
| AddressTypes.ChunkRequestsAt | include/irr/core/alloc/address_allocator_traits.h:53 | slot k asks for (bytes[k], alignment[k], hint[k]), with hint 0 when no hint array is given |
| AddressTypes.ChunkRequestsAdvance | include/irr/core/alloc/address_allocator_traits.h:199-201 | a pass handed `bytes+i`, `alignment+i`, `hint ? hint+i : nullptr` sees exactly the whole batch's requests for items [i, i+n); a null hint stays null |
| WrappedAllocator.NativeAlloc | include/irr/core/alloc/address_allocator_traits.h:87 | the allocator's own multi_alloc_addr records one batched call holding the slots and requests it was handed and whether its hint pointer was non-null; slot k gets the strategy's answer to that history, batch and hint presence |
| WrappedAllocator.AddressAllocator.GetRealAddr | include/irr/core/alloc/address_allocator_traits.h:99 | the allocator's own get_real_addr is its declared translation, and exists only when the allocator declares one |
| WrappedAllocator.AddressAllocator.Invalid | include/irr/core/alloc/address_allocator_traits.h:50-61 | the `invalid_address` the default loops compare against is the sentinel of the allocator's width, 0xDEADBEEF or 0xDEADBEEFBADC0FFE, and is representable in it |
| WrappedAllocator.AddressAllocator.AllocAddr | include/irr/core/alloc/address_allocator_traits.h:53 | alloc_addr answers the strategy's reply to its history and the request, and records exactly that call |
| WrappedAllocator.AddressAllocator.FreeAddr | include/irr/core/alloc/address_allocator_traits.h:64 | free_addr records exactly that free |
| WrappedAllocator.AddressAllocator.MultiAllocAddr | include/irr/core/alloc/address_allocator_traits.h:87 | the native batched allocate writes its answers into the output slots it was handed, changes no other cell of the array, and records one batched call, which says whether the hint pointer was null |
| WrappedAllocator.AddressAllocator.MultiFreeAddr | include/irr/core/alloc/address_allocator_traits.h:93 | the native batched free records one batched call holding the addresses and sizes it was handed |
| TraitsBase.SupportsArbitraryOrderFrees | include/irr/core/alloc/address_allocator_traits.h:39-78 | true when the allocator declares nothing, otherwise the allocator's own value |
| TraitsBase.MaxMultiOps | include/irr/core/alloc/address_allocator_traits.h:40-79 | 256 when the allocator declares nothing, otherwise the allocator's own value |
| TraitsBase.BareAllocatorDefaults | include/irr/core/alloc/address_allocator_traits.h:39-41 | an allocator declaring no constant gets supportsArbitraryOrderFrees true, maxMultiOps 256, supportsNullBuffer false |
| TraitsBase.AllocSlot | include/irr/core/alloc/address_allocator_traits.h:50-53 | a slot not holding the sentinel is left as it is and nothing is called; a sentinel slot gets the strategy's answer and exactly one alloc_addr is recorded |
| TraitsBase.AllocLoop | include/irr/core/alloc/address_allocator_traits.h:48-54 | the loop keeps the slot count and only appends to the allocator's history |
| TraitsBase.AllocLoopKeepsFilledSlots | include/irr/core/alloc/address_allocator_traits.h:50-51 | every slot that did not hold the sentinel on entry holds the same value on exit |
| TraitsBase.AllocLoopCallCount | include/irr/core/alloc/address_allocator_traits.h:48-54 | the loop makes exactly one alloc_addr per sentinel slot and nothing else |
| TraitsBase.AllocLoopSlotCall | include/irr/core/alloc/address_allocator_traits.h:48-54 | sentinel slot j is served by the call numbered by the sentinels before j; that call carries reqs[j], and slot j ends up holding the strategy's answer to the calls made before it |
| TraitsBase.AllocCallsInSlotOrder | include/irr/core/alloc/address_allocator_traits.h:48-54 | for sentinel slots j1 < j2, slot j1 is served by an earlier call than slot j2; each call carries its slot's request and the answer written into that slot, and both calls come after the earlier history |
| TraitsBase.AllocLoopAppend | include/irr/core/alloc/address_allocator_traits.h:48-54 | the loop over a + b is the loop over a, then the loop over b started from the history a left |
| TraitsBase.AllocLoopPendingShrinks | include/irr/core/alloc/address_allocator_traits.h:50-53 | at most as many sentinel slots remain as there were |
| TraitsBase.RetryTouchesOnlyFailedSlots | include/irr/core/alloc/address_allocator_traits.h:193-194 | re-running the allocate on its own output keeps every filled slot and calls alloc_addr once per slot still holding the sentinel, no more than at the start |
| TraitsBase.AllocInPlace | include/irr/core/alloc/address_allocator_traits.h:48-54 | the in-place loop keeps the array's length |
| TraitsBase.AllocInPlaceFrame | include/irr/core/alloc/address_allocator_traits.h:48-54 | the in-place loop over a batch only appends to the history and leaves the array cells before and after the batch unchanged |
| TraitsBase.AllocInPlaceFrom | include/irr/core/alloc/address_allocator_traits.h:48-54 | the in-place loop from slot i writes AllocLoop's answer over the slots [i, count) and leaves every other array cell alone |
| TraitsBase.AllocInPlaceSplit | include/irr/core/alloc/address_allocator_traits.h:45-55 | running the loop over items [i, i+m) as a batch of its own does what the loop over the whole batch does on those items |
| TraitsBase.AllocInPlaceIsAllocLoop | include/irr/core/alloc/address_allocator_traits.h:45-55 | the in-place run over a batch is AllocLoop on the batch's slots, spliced into the array |
| TraitsBase.DefaultMultiAllocAddr | include/irr/core/alloc/address_allocator_traits.h:45-55 | the default batched allocate leaves the array and the allocator's history exactly as the in-place loop says |
| TraitsBase.AllocSlotInPlace | include/irr/core/alloc/address_allocator_traits.h:50-53 | one loop iteration changes the array only at slot i, in the way AllocSlot says, and leaves the requests unchanged |
| TraitsBase.FreeLoopCallCount | include/irr/core/alloc/address_allocator_traits.h:59-65 | the free loop makes exactly one free_addr per non-sentinel address and never frees the sentinel |
| TraitsBase.FreeLoopSlotCall | include/irr/core/alloc/address_allocator_traits.h:59-65 | the non-sentinel address at slot j is freed, with bytes[j], by the call numbered j minus the sentinels before j |
| TraitsBase.FreeCallsInSlotOrder | include/irr/core/alloc/address_allocator_traits.h:59-65 | for non-sentinel slots j1 < j2, slot j1 is freed, with its own size, by an earlier call than slot j2 |
| TraitsBase.FreeLoop | include/irr/core/alloc/address_allocator_traits.h:59-65 | the free loop makes no more free_addr calls than there are addresses |
| TraitsBase.FreeLoopAppend | include/irr/core/alloc/address_allocator_traits.h:59-65 | the frees of a + b are the frees of a followed by those of b |
| TraitsBase.DefaultMultiFreeAddr | include/irr/core/alloc/address_allocator_traits.h:57-66 | the default batched free appends exactly FreeLoop's frees to the allocator's history |
| TraitsBase.FreeLoopPrefixStep | include/irr/core/alloc/address_allocator_traits.h:59-65 | the frees of slots [0, i+1) are those of [0, i), then slot i's free unless it holds the sentinel |
| TraitsBase.DefaultGetRealAddr | include/irr/core/alloc/address_allocator_traits.h:69-72 | the default get_real_addr is the identity |
| TraitsBase.ForwardGetRealAddr | include/irr/core/alloc/address_allocator_traits.h:97-100 | the forwarding get_real_addr returns the allocator's own translation |
| TraitsBase.ForwardMultiAllocAddr | include/irr/core/alloc/address_allocator_traits.h:84-88 | forwarding passes every argument unchanged to the allocator's multi_alloc_addr, a null hint pointer included, with the same effect on array and history |
| TraitsBase.ForwardMultiFreeAddr | include/irr/core/alloc/address_allocator_traits.h:90-94 | forwarding passes every argument unchanged to the allocator's multi_free_addr |
| Chunking.Chunks | include/irr/core/alloc/address_allocator_traits.h:199-201 | every pass lies inside the batch and holds between 1 and maxMultiOps items |
| Chunking.ChunksFrom | include/irr/core/alloc/address_allocator_traits.h:199-201 | there is no pass exactly when i >= count; otherwise the first pass starts at i and holds between 1 and min(count - i, maxMultiOps) items |
| Chunking.ChunksFromBounds | include/irr/core/alloc/address_allocator_traits.h:199-201 | every pass from index i lies in [i, count) and holds between 1 and maxMultiOps items |
| Chunking.ChunksFromTile | include/irr/core/alloc/address_allocator_traits.h:199-201 | the passes start at i, each but the last has exactly maxMultiOps items and is followed without gap, and the last ends at count |
| Chunking.ChunksFromOffsets | include/irr/core/alloc/address_allocator_traits.h:199 | pass k starts at item i + k * maxMultiOps |
| Chunking.ChunksFromCount | include/irr/core/alloc/address_allocator_traits.h:199 | there are ceil((count - i) / maxMultiOps) passes |
| Chunking.ChunksFromDisjoint | include/irr/core/alloc/address_allocator_traits.h:199-201 | no two passes share an item |
| Chunking.ChunksFromCover | include/irr/core/alloc/address_allocator_traits.h:199-201 | every item in [i, count) lies in some pass |
| Chunking.ChunksPartition | include/irr/core/alloc/address_allocator_traits.h:199-201 | the passes split the batch: every item lies in exactly one pass |
| Chunking.ChunksShape | include/irr/core/alloc/address_allocator_traits.h:199-201 | pass k starts at k * maxMultiOps and holds min(count - k * maxMultiOps, maxMultiOps) items; there are ceil(count / maxMultiOps) passes |
| Chunking.ChunksFromForm | include/irr/core/alloc/address_allocator_traits.h:201 | every pass holds `min(count - i, maxMultiOps)` items, counted from its own start |
| Chunking.TenItemsInPassesOfFour | include/irr/core/alloc/address_allocator_traits.h:199-201 | 10 items with maxMultiOps 4 make the passes [0,4), [4,8), [8,10) |
| AllocatorTraits.GetRealAddr | include/irr/core/alloc/address_allocator_traits.h:186-189 | the facade's get_real_addr is the allocator's own translation when it declares one, and the identity otherwise |
| AllocatorTraits.AllocPassEffect | include/irr/core/alloc/address_allocator_traits.h:200-201 | one pass only appends to the history, keeps the array's length, and leaves the cells before and after its items unchanged |
| AllocatorTraits.AllocPasses | include/irr/core/alloc/address_allocator_traits.h:199-201 | the passes, one after another, keep the array's length and only append to the history |
| AllocatorTraits.AllocTraceSteps | include/irr/core/alloc/address_allocator_traits.h:199-201 | the trace of a batched allocate starts at the initial state, takes one pass per step and ends in the state AllocPasses computes |
| AllocatorTraits.MultiAllocAddr | include/irr/core/alloc/address_allocator_traits.h:195-202 | the facade's batched allocate leaves the array and the history as the passes of the chunk loop, one after the other, say; the passes are told whether the caller's hint pointer was null |
| AllocatorTraits.AllocPassLoop | include/irr/core/alloc/address_allocator_traits.h:199-201 | the loop `for (i = 0; i < count; i += maxMultiOps)` goes through the trace one pass per iteration and ends in its last state |
| AllocatorTraits.AllocPassStep | include/irr/core/alloc/address_allocator_traits.h:200-201 | one iteration takes the array and history from the state before pass k to the state after it |
| AllocatorTraits.AllocTraceStepCases | include/irr/core/alloc/address_allocator_traits.h:200-201 | on the native policy a pass is one native batched call on its own slots; on the default policy it is the in-place loop on those slots |
| AllocatorTraits.NativeAllocPass | include/irr/core/alloc/address_allocator_traits.h:200-201 | a pass on the native policy hands the allocator the slots and requests of items [i, i+n), and a hint pointer that is null exactly when the caller's is, and writes its answers there only |
| AllocatorTraits.DefaultAllocPass | include/irr/core/alloc/address_allocator_traits.h:200-201 | a pass on the default policy runs the in-place loop over items [i, i+n) |
| AllocatorTraits.FreePassEffect | include/irr/core/alloc/address_allocator_traits.h:208-209 | a free pass only appends to the allocator's history |
| AllocatorTraits.FreePasses | include/irr/core/alloc/address_allocator_traits.h:207-209 | the free passes, one after another, only append to the history |
| AllocatorTraits.FreeTraceSteps | include/irr/core/alloc/address_allocator_traits.h:207-209 | the trace of a batched free starts at the initial history, takes one pass per step and ends in the history FreePasses computes |
| AllocatorTraits.MultiFreeAddr | include/irr/core/alloc/address_allocator_traits.h:204-210 | the facade's batched free leaves the history as the passes of the chunk loop, one after the other, say |
| AllocatorTraits.FreePassLoop | include/irr/core/alloc/address_allocator_traits.h:207-209 | the loop goes through the free trace one pass per iteration and ends in its last history |
| AllocatorTraits.FreeTraceStepCases | include/irr/core/alloc/address_allocator_traits.h:208-209 | on the native policy a free pass appends one batched free of its own items; on the default policy it appends the loop's single frees |
| AllocatorTraits.FreePassStep | include/irr/core/alloc/address_allocator_traits.h:208-209 | one iteration takes the history from before pass k to after it |
| FacadeProperties.DefaultAllocPassesFrom | include/irr/core/alloc/address_allocator_traits.h:199-201 | on the default policy, the passes from item i do what the in-place loop does from slot i |
| FacadeProperties.ChunkedDefaultAllocIsOneLoop | include/irr/core/alloc/address_allocator_traits.h:195-202 | on the default policy, chunking changes nothing: the chunked allocate does what one default loop over the whole batch does, and the array outside the batch is untouched |
| FacadeProperties.FreePassesShift | include/irr/core/alloc/address_allocator_traits.h:207-209 | the passes only append: run after any history, they add what they add to an empty history |
| FacadeProperties.DefaultFreePassesFrom | include/irr/core/alloc/address_allocator_traits.h:207-209 | on the default policy, the passes from item i free what one default loop over items [i, count) frees |
| FacadeProperties.ChunkedDefaultFreeIsOneLoop | include/irr/core/alloc/address_allocator_traits.h:204-210 | on the default policy, the chunked free makes exactly the frees of one default loop over the whole batch, in the same order |
| FacadeProperties.NativeFreePasses | include/irr/core/alloc/address_allocator_traits.h:207-209 | on the native policy, each pass appends one batched free of its own addresses and sizes |
| FacadeProperties.StridedPassFrees | include/irr/core/alloc/address_allocator_traits.h:207-209 | the native passes' batched frees are ceil(count / maxMultiOps) calls; call k frees items [k * maxMultiOps, k * maxMultiOps + min(count - k * maxMultiOps, maxMultiOps)) |
| FacadeProperties.ChunkedNativeFree | include/irr/core/alloc/address_allocator_traits.h:204-210 | on the native policy, the chunked free keeps the earlier history and appends exactly those strided batched frees |
| FacadeProperties.TenFreesInThreeBatches | include/irr/core/alloc/address_allocator_traits.h:207-209 | ten addresses with maxMultiOps 4 reach a native allocator as three batched frees, of items 0-3, 4-7 and 8-9 |
| FacadeProperties.NativeAllocPassesFrom | include/irr/core/alloc/address_allocator_traits.h:199-201 | on the native policy, the passes from item i make one batched allocation per pass. Each holds its slots as they were on entry, its requests and whether the caller passed a hint array. Pass k's slots end up holding the allocator's answer to them, given the history that includes the earlier passes' calls. The slots before item i and after the batch are kept. |
| FacadeProperties.ChunkedNativeAllocHint | include/irr/core/alloc/address_allocator_traits.h:199-201 | on the native policy, the chunked allocate appends exactly one batched allocation per pass, and each is hinted exactly when the caller's hint pointer is non-null: a null hint reaches every pass as null |
| FacadeProperties.ChunkedNativeAlloc | include/irr/core/alloc/address_allocator_traits.h:195-202 | on the native policy, the chunked allocate makes one batched allocation per pass, holding that pass's slots and requests and whether the caller passed a hint array. Pass k's slots end up holding the allocator's answer to them, given the history that includes passes 0..k-1. The array outside the batch is left alone. |

## Left out

- The detection probes at lines 130-170 are not modelled. The model instead
  takes a `Capabilities` value saying which members the allocator type
  declares, and picks a policy from it.
  - Each probe tests `std::is_same<decltype(...), void>`. For a data member
    such as `maxMultiOps`, and for a `get_real_addr` that returns
    `size_type`, that test would be false.
  - The model picks the forwarding policy whenever the allocator declares the
    member. That is what the `has_*` selectors at lines 188, 198, 200, 206
    and 208 are meant to do.
- WrappedAllocator.AddressAllocator.Invalid: the default loops compare with
  `AddressAlloc::invalid_address` (lines 50 and 61). The model takes it to be
  `address_type_traits<size_type>::invalid_address` of the allocator's width.
  An allocator that declares a different sentinel is not modelled.
- AllocatorTraits.GetRealAddr: line 188 calls the selected policy's
  `get_real_addr` with `allocated_addr` alone. Both policies take
  `(alloc, allocated_addr)`. The model passes both, as the policies'
  signatures require.
- The loop index and `count` are `uint32_t` in the source; the model uses
  unbounded naturals. Addresses, sizes and the strategy's answers are also
  unbounded naturals rather than values below 2^32 or 2^64. Nothing in the
  facade computes with them; it only compares them with the sentinel and
  passes them on. In the source, `i += maxMultiOps` can wrap around when
  `count` is close to 2^32; that wrap is not modelled.
- AllocatorTraits.MultiAllocAddr and AllocatorTraits.MultiFreeAddr require
  `count == 0 || maxMultiOps >= 1`. A `maxMultiOps` of 0 makes the source
  loop spin forever on a non-empty batch.
- The batched allocate requires the input arrays (`bytes`, `alignment`,
  `hint`) to be distinct from the output array. Aliasing between them is not
  modelled.
- TraitsBase.SupportsArbitraryOrderFrees: the facade's selection of this
  constant (line 172) is commented out, so the facade exposes no such
  constant. The model states what that line would select: the allocator's
  own value when it declares one, `true` otherwise.
- `supportsNullBuffer` is not forwarded by the forwarding policy: the
  forwarding line is commented out at line 80. The facade's selection of it
  (line 174) is also commented out. The model keeps only the default
  constant.
- These are not part of this model; each only forwards to the allocator or
  manages its lifetime:
  - `ConstGetter` and the query accessors from line 213 on (`getBufferStart`,
    `max_size`, ...);
  - the constructors (`using AddressAlloc::AddressAlloc`);
  - the virtual destructor.
- The allocation strategies of the concrete allocators are not modelled. An
  allocator is any function from its call history and the request to an
  address, so every property holds for every strategy.
- The buffer contents are not modelled; only addresses are.
- Thread safety is not modelled: the source makes no promise about it.
