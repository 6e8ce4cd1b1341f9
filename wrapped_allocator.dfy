/** The address allocator that address_allocator_traits wraps. Its strategies
    (pool, linear, buddy, ...) are not part of this model: whatever it answers
    is some fixed function of the calls it has served so far, so every property
    proved below holds for every strategy. */
module WrappedAllocator {
  import opened AddressTypes

  /** How an allocator answers alloc_addr: its call history and the request decide the address. */
  type AllocStrategy = (seq<Call>, AllocRequest) -> nat

  /** How a native multi_alloc_addr fills slot k of its batch. The flag says
      whether it was handed a hint array at all: a null hint pointer is not
      the same argument as an array of zero hints. */
  type BatchStrategy = (seq<Call>, seq<nat>, seq<AllocRequest>, bool, nat) -> nat

  /** What an allocator type declares among the optional members; None or false
      means the member is not declared. */
  datatype Capabilities = Capabilities(
    supportsArbitraryOrderFrees: Option<bool>,
    maxMultiOps: Option<nat>,
    supportsNullBuffer: Option<bool>,
    multiAlloc: Option<BatchStrategy>,
    multiFree: bool,
    realAddr: Option<nat -> nat>)

  /** An allocator type that declares none of the optional members. */
  const Bare: Capabilities := Capabilities(None, None, None, None, false, None)

  /** The effect of a native multi_alloc_addr on the batch it is handed: one
      batched call is recorded and every slot receives the strategy's answer.
      hinted says whether the hint pointer it was handed is non-null. */
  function NativeAlloc(strategy: BatchStrategy, log: seq<Call>, slots: seq<nat>, reqs: seq<AllocRequest>, hinted: bool): (r: BatchState)
    requires |reqs| == |slots|
    ensures |r.slots| == |slots|
    ensures forall k :: 0 <= k < |slots| ==> r.slots[k] == strategy(log, slots, reqs, hinted, k)
    ensures r.log == log + [BatchAlloc(slots, reqs, hinted)]
  {
    BatchState(seq(|slots|, k requires 0 <= k < |slots| => strategy(log, slots, reqs, hinted, k)),
               log + [BatchAlloc(slots, reqs, hinted)])
  }

  class AddressAllocator {
    const width: AddressWidth
    const strategy: AllocStrategy
    const caps: Capabilities
    /** Every call served so far, oldest first; it stands for the allocator's internal state. */
    var log: seq<Call>

    constructor (width: AddressWidth, strategy: AllocStrategy, caps: Capabilities)
      ensures this.width == width && this.strategy == strategy && this.caps == caps
      ensures log == []
    {
      this.width := width;
      this.strategy := strategy;
      this.caps := caps;
      log := [];
    }

    /** AddressAlloc::invalid_address, taken to be the sentinel of this
        allocator's size_type. */
    function Invalid(): (r: nat)
      ensures r < Modulus(width)
      ensures width == Width32 ==> r == 0xDEAD_BEEF
      ensures width == Width64 ==> r == 0xDEAD_BEEF_BADC_0FFE
    {
      InvalidAddress(width)
    }

    /** Single-item alloc_addr(bytes, alignment, hint). */
    method AllocAddr(bytes: nat, alignment: nat, hint: nat) returns (addr: nat)
      modifies this
      ensures addr == strategy(old(log), AllocRequest(bytes, alignment, hint))
      ensures log == old(log) + [Alloc(AllocRequest(bytes, alignment, hint), addr)]
    {
      addr := strategy(log, AllocRequest(bytes, alignment, hint));
      log := log + [Alloc(AllocRequest(bytes, alignment, hint), addr)];
    }

    /** Single-item free_addr(addr, bytes). */
    method FreeAddr(addr: nat, bytes: nat)
      modifies this
      ensures log == old(log) + [Free(addr, bytes)]
    {
      log := log + [Free(addr, bytes)];
    }

    /** The allocator's own multi_alloc_addr, present only when it declares one. */
    method MultiAllocAddr(count: nat, out: Ptr, bytes: Ptr, alignment: Ptr, hint: Option<Ptr>)
      requires caps.multiAlloc.Some?
      requires Spans(out, count) && Spans(bytes, count) && Spans(alignment, count)
      requires hint.Some? ==> Spans(hint.value, count)
      requires Unaliased(out, bytes, alignment, hint)
      modifies this, out.arr
      ensures var r := NativeAlloc(caps.multiAlloc.value, old(log), old(out.arr[..])[out.off .. out.off + count],
                                   old(ChunkRequests(bytes, alignment, hint, count)), hint.Some?);
              out.arr[..] == Splice(old(out.arr[..]), out.off, r.slots) && log == r.log
    {
      var r := NativeAlloc(caps.multiAlloc.value, log, Slice(out, count), ChunkRequests(bytes, alignment, hint, count), hint.Some?);
      ghost var a0 := out.arr[..];
      forall k | 0 <= k < count {
        out.arr[out.off + k] := r.slots[k];
      }
      assert out.arr[..] == Splice(a0, out.off, r.slots);
      log := r.log;
    }

    /** The allocator's own multi_free_addr, present only when it declares one. */
    method MultiFreeAddr(count: nat, addr: Ptr, bytes: Ptr)
      requires caps.multiFree
      requires Spans(addr, count) && Spans(bytes, count)
      modifies this
      ensures log == old(log) + [BatchFree(Slice(addr, count), Slice(bytes, count))]
    {
      log := log + [BatchFree(Slice(addr, count), Slice(bytes, count))];
    }

    /** The allocator's own get_real_addr, present only when it declares one. */
    function GetRealAddr(addr: nat): (r: nat)
      requires caps.realAddr.Some?
      ensures r == caps.realAddr.value(addr)
    {
      caps.realAddr.value(addr)
    }
  }
}
