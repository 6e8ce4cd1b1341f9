/** How the facade cuts a batch of count items into calls of at most
    maxMultiOps items: `for (i = 0; i < count; i += maxMultiOps)` with
    `min(count - i, maxMultiOps)` items starting at item i. */
module Chunking {
  import opened AddressTypes

  /** One pass of the facade loop: items [offset, offset + length). */
  datatype Chunk = Chunk(offset: nat, length: nat)

  /** Item j is handled by the pass ch. */
  predicate InChunk(ch: Chunk, j: nat)
  {
    ch.offset <= j < ch.offset + ch.length
  }

  /** Every pass of cs lies in [lo, hi) and has between 1 and c items. */
  predicate Within(cs: seq<Chunk>, lo: nat, hi: nat, c: nat)
  {
    forall k :: 0 <= k < |cs| ==> lo <= cs[k].offset && 1 <= cs[k].length <= c && cs[k].offset + cs[k].length <= hi
  }

  /** Every pass of cs ends by item n. */
  predicate EndsBy(cs: seq<Chunk>, n: nat)
  {
    forall k :: 0 <= k < |cs| ==> cs[k].offset + cs[k].length <= n
  }

  /** Each pass of cs ends before any later one starts. */
  predicate Disjoint(cs: seq<Chunk>)
  {
    forall k1, k2 :: 0 <= k1 < k2 < |cs| ==> cs[k1].offset + cs[k1].length <= cs[k2].offset
  }

  /** Some pass of cs handles item j. */
  predicate Covered(cs: seq<Chunk>, j: nat)
  {
    exists k :: 0 <= k < |cs| && InChunk(cs[k], j)
  }

  /** The passes the facade loop makes from index i on, with step c. */
  function ChunksFrom(count: nat, c: nat, i: nat): (cs: seq<Chunk>)
    requires c >= 1 || i >= count
    ensures |cs| == 0 <==> i >= count
    ensures i < count ==> cs[0].offset == i && 1 <= cs[0].length <= c && cs[0].length <= count - i
    decreases count - i
  {
    if i >= count then [] else [Chunk(i, Min(count - i, c))] + ChunksFrom(count, c, i + c)
  }

  /** Every pass the facade loop makes over a batch of count items. A step of
      0 makes the loop spin forever, so it is only meaningful for an empty batch. */
  function Chunks(count: nat, c: nat): (cs: seq<Chunk>)
    requires count == 0 || c >= 1
    ensures Within(cs, 0, count, c)
  {
    ChunksFromBounds(count, c, 0);
    ChunksFrom(count, c, 0)
  }

  /** Every pass from index i on lies in [i, count) and has between 1 and c items. */
  lemma {:induction false} ChunksFromBounds(count: nat, c: nat, i: nat)
    requires c >= 1 || i >= count
    ensures Within(ChunksFrom(count, c, i), i, count, c)
    decreases count - i
  {
    if i < count {
      var cs := ChunksFrom(count, c, i);
      var rest := ChunksFrom(count, c, i + c);
      assert cs == [Chunk(i, Min(count - i, c))] + rest;
      ChunksFromBounds(count, c, i + c);
      forall k | 1 <= k < |cs|
        ensures i <= cs[k].offset && 1 <= cs[k].length <= c && cs[k].offset + cs[k].length <= count
      {
        assert cs[k] == rest[k - 1];
      }
    }
  }

  /** The passes from index i tile [i, count): the first starts at i, each
      but the last has exactly c items and is followed by the next one without
      gap or overlap, and the last one ends at count. */
  lemma {:induction false} ChunksFromTile(count: nat, c: nat, i: nat)
    requires c >= 1 && i <= count
    ensures var cs := ChunksFrom(count, c, i);
            (|cs| == 0 <==> i == count) &&
            (|cs| > 0 ==> cs[0].offset == i && cs[|cs| - 1].offset + cs[|cs| - 1].length == count) &&
            (forall k :: 0 <= k < |cs| - 1 ==> cs[k].length == c && cs[k + 1].offset == cs[k].offset + c)
    decreases count - i
  {
    if i < count {
      var cs := ChunksFrom(count, c, i);
      var rest := ChunksFrom(count, c, i + c);
      assert cs == [Chunk(i, Min(count - i, c))] + rest;
      if i + c <= count {
        ChunksFromTile(count, c, i + c);
        assert forall k :: 1 <= k < |cs| ==> cs[k] == rest[k - 1];
      } else {
        assert rest == [];
      }
    }
  }

  /** Pass k of cs starts at item i + k * c. */
  predicate Strided(cs: seq<Chunk>, i: nat, c: nat)
  {
    forall k :: 0 <= k < |cs| ==> cs[k].offset == i + k * c
  }

  /** Pass k from index i starts at item i + k * c. */
  lemma {:induction false} ChunksFromOffsets(count: nat, c: nat, i: nat)
    requires c >= 1
    ensures Strided(ChunksFrom(count, c, i), i, c)
    decreases count - i
  {
    if i < count {
      var cs := ChunksFrom(count, c, i);
      var rest := ChunksFrom(count, c, i + c);
      assert cs == [Chunk(i, Min(count - i, c))] + rest;
      ChunksFromOffsets(count, c, i + c);
      forall k | 1 <= k < |cs|
        ensures cs[k].offset == i + k * c
      {
        assert cs[k] == rest[k - 1];
        MulSucc(k - 1, c);
      }
    }
  }

  /** The passes from index i together hold ceil((count - i) / c) * c >= count - i
      items, at most c - 1 too many. */
  lemma {:induction false} ChunksFromCount(count: nat, c: nat, i: nat)
    requires c >= 1 && i <= count
    ensures (|ChunksFrom(count, c, i)| - 1) * c < count - i <= |ChunksFrom(count, c, i)| * c
    decreases count - i
  {
    if i < count {
      var rest := ChunksFrom(count, c, i + c);
      assert |ChunksFrom(count, c, i)| == 1 + |rest|;
      if i + c <= count {
        ChunksFromCount(count, c, i + c);
        if |rest| > 0 {
          MulSucc(|rest| - 1, c);
        }
        MulSucc(|rest|, c);
      } else {
        assert rest == [];
      }
    }
  }

  /** (k + 1) * c == k * c + c. */
  lemma MulSucc(k: nat, c: nat)
    ensures k * c + c == (k + 1) * c
  {
  }

  /** No two passes share an item. */
  lemma {:induction false} ChunksFromDisjoint(count: nat, c: nat, i: nat)
    requires c >= 1
    ensures Disjoint(ChunksFrom(count, c, i))
    decreases count - i
  {
    if i < count {
      var cs := ChunksFrom(count, c, i);
      var rest := ChunksFrom(count, c, i + c);
      assert cs == [Chunk(i, Min(count - i, c))] + rest;
      ChunksFromDisjoint(count, c, i + c);
      ChunksFromBounds(count, c, i + c);
      forall k1, k2 | 0 <= k1 < k2 < |cs|
        ensures cs[k1].offset + cs[k1].length <= cs[k2].offset
      {
        assert cs[k2] == rest[k2 - 1];
        if k1 > 0 {
          assert cs[k1] == rest[k1 - 1];
        }
      }
    }
  }

  /** Every item in [i, count) lies in some pass. */
  lemma {:induction false} ChunksFromCover(count: nat, c: nat, i: nat, j: nat)
    requires c >= 1 && i <= j < count
    ensures var cs := ChunksFrom(count, c, i);
            Covered(cs, j)
    decreases count - i
  {
    var cs := ChunksFrom(count, c, i);
    var rest := ChunksFrom(count, c, i + c);
    assert cs == [Chunk(i, Min(count - i, c))] + rest;
    if j >= i + cs[0].length {
      ChunksFromCover(count, c, i + c, j);
      var k :| 0 <= k < |rest| && InChunk(rest[k], j);
      assert cs[k + 1] == rest[k];
      assert InChunk(cs[k + 1], j);
    } else {
      assert InChunk(cs[0], j);
    }
  }

  /** The passes over a batch of count items with step c >= 1 split the
      batch: every item lies in some pass and no two passes share an item. */
  lemma ChunksPartition(count: nat, c: nat)
    requires c >= 1
    ensures var cs := Chunks(count, c);
            Disjoint(cs) && forall j :: 0 <= j < count ==> Covered(cs, j)
  {
    ChunksFromDisjoint(count, c, 0);
    forall j | 0 <= j < count
      ensures Covered(Chunks(count, c), j)
    {
      ChunksFromCover(count, c, 0, j);
    }
  }

  /** Dropping the first pass keeps every pass ending by item n. */
  lemma EndsByTail(cs: seq<Chunk>, n: nat)
    requires |cs| > 0 && EndsBy(cs, n)
    ensures EndsBy(cs[1..], n)
  {
    forall k | 0 <= k < |cs[1..]| ensures cs[1..][k].offset + cs[1..][k].length <= n {
      assert cs[1..][k] == cs[k + 1];
    }
  }

  /** While items remain from index i, the pass list continues with the pass
      at i and then the passes from i + c. */
  lemma ChunksFromNext(cs: seq<Chunk>, k: nat, count: nat, c: nat, i: nat)
    requires c >= 1 && i < count && k <= |cs| && cs[k..] == ChunksFrom(count, c, i)
    ensures k < |cs| && cs[k] == Chunk(i, Min(count - i, c)) && cs[k + 1..] == ChunksFrom(count, c, i + c)
  {
    assert cs[k..][0] == cs[k];
    assert cs[k + 1..] == cs[k..][1..];
  }

  /** Pass k of a batch of count items starts at item k * c and holds
      min(count - k * c, c) items, and there are ceil(count / c) passes. */
  lemma ChunksShape(count: nat, c: nat)
    requires c >= 1
    ensures var cs := Chunks(count, c);
            (|cs| - 1) * c < count <= |cs| * c &&
            forall k :: 0 <= k < |cs| ==> k * c < count && cs[k] == Chunk(k * c, Min(count - k * c, c))
  {
    var cs := Chunks(count, c);
    ChunksFromOffsets(count, c, 0);
    ChunksFromCount(count, c, 0);
    ChunksFromForm(count, c, 0);
    forall k | 0 <= k < |cs|
      ensures k * c < count && cs[k] == Chunk(k * c, Min(count - k * c, c))
    {
      assert cs[k].offset == k * c;
    }
  }

  /** Every pass of cs starts before count and holds the min(count - offset, c) items left there. */
  predicate LeftoverSized(cs: seq<Chunk>, count: nat, c: nat)
  {
    forall k :: 0 <= k < |cs| ==> cs[k].offset < count && cs[k] == Chunk(cs[k].offset, Min(count - cs[k].offset, c))
  }

  /** Every pass from index i holds the min(count - offset, c) items left at its offset. */
  lemma {:induction false} ChunksFromForm(count: nat, c: nat, i: nat)
    requires c >= 1
    ensures LeftoverSized(ChunksFrom(count, c, i), count, c)
    decreases count - i
  {
    if i < count {
      var cs := ChunksFrom(count, c, i);
      var rest := ChunksFrom(count, c, i + c);
      assert cs == [Chunk(i, Min(count - i, c))] + rest;
      ChunksFromForm(count, c, i + c);
      forall k | 1 <= k < |cs|
        ensures cs[k].offset < count && cs[k] == Chunk(cs[k].offset, Min(count - cs[k].offset, c))
      {
        assert cs[k] == rest[k - 1];
      }
    }
  }

  /** The passes of the facade over 10 items with maxMultiOps 4. */
  lemma TenItemsInPassesOfFour()
    ensures Chunks(10, 4) == [Chunk(0, 4), Chunk(4, 4), Chunk(8, 2)]
  {
    assert ChunksFrom(10, 4, 12) == [];
    assert ChunksFrom(10, 4, 8) == [Chunk(8, 2)];
    assert ChunksFrom(10, 4, 4) == [Chunk(4, 4), Chunk(8, 2)];
  }
}
