/** Values shared by the whole model: the address widths and their
    `invalid_address` sentinels (address_type_traits), single-item allocation
    requests, the record of calls an allocator receives, and pointers into the
    caller's arrays. */
module AddressTypes {

  datatype Option<T> = None | Some(value: T)

  function Min(a: nat, b: nat): (m: nat)
    ensures m <= a && m <= b
    ensures m == a || m == b
  {
    if a <= b then a else b
  }

  /** The two instantiations of address_type_traits: a 32-bit or a 64-bit size_type. */
  datatype AddressWidth = Width32 | Width64

  /** Number of distinct addresses of the given width. */
  function Modulus(w: AddressWidth): nat
  {
    match w
    case Width32 => 0x1_0000_0000
    case Width64 => 0x1_0000_0000_0000_0000
  }

  /** address_type_traits<T>::invalid_address: the "no address" bit pattern of each width. */
  function InvalidAddress(w: AddressWidth): (r: nat)
    ensures r < Modulus(w)
    ensures w == Width32 ==> r == 0xDEAD_BEEF
    ensures w == Width64 ==> r == 0xDEAD_BEEF_BADC_0FFE
  {
    match w
    case Width32 => 0xDEAD_BEEF
    case Width64 => 0xDEAD_BEEF_BADC_0FFE
  }

  /** The arguments of one single-item alloc_addr(bytes, alignment, hint). */
  datatype AllocRequest = AllocRequest(bytes: nat, alignment: nat, hint: nat)

  /** One call received by the wrapped allocator. */
  datatype Call =
    | Alloc(request: AllocRequest, result: nat)
    | Free(addr: nat, size: nat)
    | BatchAlloc(slots: seq<nat>, requests: seq<AllocRequest>, hinted: bool)
    | BatchFree(addrs: seq<nat>, sizes: seq<nat>)

  /** The output slots of a batch together with the allocator's call record. */
  datatype BatchState = BatchState(slots: seq<nat>, log: seq<Call>)

  /** A `size_type*` into a caller's array: the array and the index it points at. */
  datatype Ptr = Ptr(arr: array<nat>, off: nat)

  /** The pointer may be read (or written) at its first n positions. */
  predicate Spans(p: Ptr, n: nat)
  {
    p.off + n <= p.arr.Length
  }

  /** Pointer arithmetic `p + i`: the same array, and n positions from p + i
      are in bounds exactly when i + n positions from p are. */
  function Advance(p: Ptr, i: nat): (r: Ptr)
    ensures r.arr == p.arr && r.off == p.off + i
    ensures forall n: nat :: Spans(r, n) <==> Spans(p, i + n)
  {
    Ptr(p.arr, p.off + i)
  }

  /** `hint ? hint + i : nullptr`: a null hint stays null, any other moves i on. */
  function AdvanceHint(h: Option<Ptr>, i: nat): (r: Option<Ptr>)
    ensures r.None? <==> h.None?
    ensures h.Some? ==> r.value == Advance(h.value, i)
  {
    match h
    case None => None
    case Some(p) => Some(Advance(p, i))
  }

  /** The n values the pointer designates. */
  function Slice(p: Ptr, n: nat): (s: seq<nat>)
    requires Spans(p, n)
    reads p.arr
    ensures |s| == n
  {
    p.arr[p.off .. p.off + n]
  }

  /** The array contents `whole` after `part` is written at position off. */
  function Splice(whole: seq<nat>, off: nat, part: seq<nat>): (r: seq<nat>)
    requires off + |part| <= |whole|
    ensures |r| == |whole|
    ensures forall k :: 0 <= k < |whole| ==>
              r[k] == if off <= k < off + |part| then part[k - off] else whole[k]
  {
    whole[..off] + part + whole[off + |part|..]
  }

  /** The hint each of the n slots uses: `hint[k]`, or 0 when no hint array is given. */
  function HintSlice(h: Option<Ptr>, n: nat): (s: seq<nat>)
    requires h.Some? ==> Spans(h.value, n)
    reads if h.Some? then {h.value.arr} else {}
    ensures |s| == n
    ensures h.None? ==> forall k :: 0 <= k < n ==> s[k] == 0
    ensures h.Some? ==> forall k :: 0 <= k < n ==> s[k] == h.value.arr[h.value.off + k]
  {
    match h
    case None => seq(n, _ => 0)
    case Some(p) => Slice(p, n)
  }

  /** Slot k of a batch asks for alloc_addr(bytes[k], alignment[k], hints[k]). */
  function Requests(bytes: seq<nat>, alignment: seq<nat>, hints: seq<nat>): (r: seq<AllocRequest>)
    requires |alignment| == |bytes| && |hints| == |bytes|
    ensures |r| == |bytes|
  {
    seq(|bytes|, k requires 0 <= k < |bytes| => AllocRequest(bytes[k], alignment[k], hints[k]))
  }

  /** The requests of the first n slots of a batch. */
  function ChunkRequests(bytes: Ptr, alignment: Ptr, hint: Option<Ptr>, n: nat): (r: seq<AllocRequest>)
    requires Spans(bytes, n) && Spans(alignment, n) && (hint.Some? ==> Spans(hint.value, n))
    reads bytes.arr, alignment.arr, if hint.Some? then {hint.value.arr} else {}
    ensures |r| == n
  {
    Requests(Slice(bytes, n), Slice(alignment, n), HintSlice(hint, n))
  }

  /** Slot k asks for alloc_addr(bytes[k], alignment[k], hint ? hint[k] : 0). */
  lemma ChunkRequestsAt(bytes: Ptr, alignment: Ptr, hint: Option<Ptr>, n: nat)
    requires Spans(bytes, n) && Spans(alignment, n) && (hint.Some? ==> Spans(hint.value, n))
    ensures var r := ChunkRequests(bytes, alignment, hint, n);
            forall k :: 0 <= k < n ==>
              r[k] == AllocRequest(bytes.arr[bytes.off + k], alignment.arr[alignment.off + k],
                                   if hint.Some? then hint.value.arr[hint.value.off + k] else 0)
  {
  }

  /** The input arrays of a batched allocate are not its output array. */
  predicate Unaliased(out: Ptr, bytes: Ptr, alignment: Ptr, hint: Option<Ptr>)
  {
    out.arr != bytes.arr && out.arr != alignment.arr && (hint.Some? ==> out.arr != hint.value.arr)
  }

  /** Advancing a pointer by i and taking n values reads the same cells as
      taking count values and slicing [i, i + n). */
  lemma SliceAdvance(p: Ptr, count: nat, i: nat, n: nat)
    requires Spans(p, count) && i + n <= count
    ensures Spans(Advance(p, i), n)
    ensures Slice(Advance(p, i), n) == Slice(p, count)[i .. i + n]
  {
    var whole := p.arr[p.off .. p.off + count];
    var part := p.arr[p.off + i .. p.off + i + n];
    assert |part| == |whole[i .. i + n]|;
    forall k | 0 <= k < n
      ensures part[k] == whole[i .. i + n][k]
    {
      assert part[k] == p.arr[p.off + i + k];
      assert whole[i + k] == p.arr[p.off + i + k];
    }
  }

  /** The same for a hint pointer, which stays null when it is null. */
  lemma HintSliceAdvance(h: Option<Ptr>, count: nat, i: nat, n: nat)
    requires (h.Some? ==> Spans(h.value, count)) && i + n <= count
    ensures AdvanceHint(h, i).Some? ==> Spans(AdvanceHint(h, i).value, n)
    ensures HintSlice(AdvanceHint(h, i), n) == HintSlice(h, count)[i .. i + n]
  {
    if h.Some? {
      SliceAdvance(h.value, count, i, n);
    } else {
      assert HintSlice(None, n) == HintSlice(h, count)[i .. i + n];
    }
  }

  /** Requests commute with taking slots [i, i + n). */
  lemma RequestsSlice(bytes: seq<nat>, alignment: seq<nat>, hints: seq<nat>, i: nat, n: nat)
    requires |alignment| == |bytes| && |hints| == |bytes| && i + n <= |bytes|
    ensures Requests(bytes[i .. i + n], alignment[i .. i + n], hints[i .. i + n]) == Requests(bytes, alignment, hints)[i .. i + n]
  {
  }

  /** The requests seen by a chunk starting at slot i are the requests of the
      whole batch at slots [i, i + n); in particular a null hint stays null. */
  lemma ChunkRequestsAdvance(bytes: Ptr, alignment: Ptr, hint: Option<Ptr>, count: nat, i: nat, n: nat)
    requires Spans(bytes, count) && Spans(alignment, count) && (hint.Some? ==> Spans(hint.value, count))
    requires i + n <= count
    ensures Spans(Advance(bytes, i), n) && Spans(Advance(alignment, i), n)
    ensures AdvanceHint(hint, i).Some? ==> Spans(AdvanceHint(hint, i).value, n)
    ensures ChunkRequests(Advance(bytes, i), Advance(alignment, i), AdvanceHint(hint, i), n)
            == ChunkRequests(bytes, alignment, hint, count)[i .. i + n]
  {
    SliceAdvance(bytes, count, i, n);
    SliceAdvance(alignment, count, i, n);
    HintSliceAdvance(hint, count, i, n);
    RequestsSlice(Slice(bytes, count), Slice(alignment, count), HintSlice(hint, count), i, n);
  }

  /** Concatenation is associative; stated once so that callers need no extensionality proof. */
  lemma AppendAssoc<T>(a: seq<T>, b: seq<T>, c: seq<T>)
    ensures (a + b) + c == a + (b + c)
  {
  }

  /** Appending nothing changes nothing. */
  lemma AppendEmpty<T>(a: seq<T>)
    ensures a + [] == a
  {
  }

  /** Appending to nothing gives what is appended. */
  lemma EmptyAppend<T>(a: seq<T>)
    ensures [] + a == a
  {
  }

  /** A non-empty sequence is its first element followed by the rest. */
  lemma ConsTail<T>(s: seq<T>)
    requires |s| > 0
    ensures s == [s[0]] + s[1..]
  {
  }

  /** Two sequences that agree up to q agree up to any p <= q. */
  lemma PrefixAgree<T>(a: seq<T>, b: seq<T>, p: nat, q: nat)
    requires p <= q <= |a| && q <= |b| && a[..q] == b[..q]
    ensures a[..p] == b[..p]
  {
    assert a[..p] == a[..q][..p];
    assert b[..p] == b[..q][..p];
  }

  /** Two sequences that agree from p on agree from any q >= p on. */
  lemma SuffixAgree<T>(a: seq<T>, b: seq<T>, p: nat, q: nat)
    requires p <= q <= |a| && q <= |b| && a[p..] == b[p..]
    ensures a[q..] == b[q..]
  {
    assert a[q..] == a[p..][q - p..];
    assert b[q..] == b[p..][q - p..];
  }

  /** The first k + 1 elements of x followed by q are x followed by the first k of q. */
  lemma ConsPrefix<T>(x: T, q: seq<T>, k: nat)
    requires k <= |q|
    ensures ([x] + q)[..k + 1] == [x] + q[..k]
  {
  }

  /** A history that already holds x, followed by the first k - 1 elements of
      q, is the older history followed by the first k elements of [x] + q. */
  lemma HistoryShift<T>(log: seq<T>, x: T, q: seq<T>, p: seq<T>, k: nat)
    requires p == [x] + q && 1 <= k <= |p|
    ensures (log + [x]) + q[..k - 1] == log + p[..k]
  {
    ConsPrefix(x, q, k - 1);
    AppendAssoc(log, [x], q[..k - 1]);
  }

  /** Two sequences that agree up to q agree on every slice that ends by q. */
  lemma PrefixSliceAgree<T>(a: seq<T>, b: seq<T>, q: nat, lo: nat, hi: nat)
    requires lo <= hi <= q <= |a| && q <= |b| && a[..q] == b[..q]
    ensures a[lo .. hi] == b[lo .. hi]
  {
    forall k | 0 <= k < hi - lo ensures a[lo .. hi][k] == b[lo .. hi][k] {
      assert a[lo + k] == a[..q][lo + k] == b[..q][lo + k] == b[lo + k];
    }
  }

  /** Two sequences that agree from p on agree on every slice that starts at or after p. */
  lemma SuffixSliceAgree<T>(a: seq<T>, b: seq<T>, p: nat, lo: nat, hi: nat)
    requires p <= lo <= hi <= |a| && hi <= |b| && a[p..] == b[p..]
    ensures a[lo .. hi] == b[lo .. hi]
  {
    forall k | 0 <= k < hi - lo ensures a[lo .. hi][k] == b[lo .. hi][k] {
      assert a[lo + k] == a[p..][lo + k - p] == b[p..][lo + k - p] == b[lo + k];
    }
  }

  /** What Splice writes at off can be read back there. */
  lemma SpliceSlice(whole: seq<nat>, off: nat, part: seq<nat>)
    requires off + |part| <= |whole|
    ensures Splice(whole, off, part)[off .. off + |part|] == part
  {
    var r := Splice(whole, off, part);
    forall k | 0 <= k < |part| ensures r[off .. off + |part|][k] == part[k] {
      assert r[off + k] == part[k];
    }
  }

  /** A concatenation splits back into its two parts. */
  lemma AppendSplit<T>(a: seq<T>, b: seq<T>)
    ensures |a| <= |a + b| && (a + b)[..|a|] == a && (a + b)[|a|..] == b
  {
  }
}
