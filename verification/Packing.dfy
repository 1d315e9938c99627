/**
 * Greedy packing in order: packSections fills comments with sections, batchBySize fills
 * requests with resources. Both take items while they fit, and a first item always.
 */
module Packing {
  import opened Text


  datatype Range = Range(start: nat, end: nat)

  function Total(sizes: seq<nat>, i: nat, j: nat): nat
    requires i <= j <= |sizes|
  {
    if i == j then 0 else Total(sizes, i, j - 1) + sizes[j - 1]
  }

  /** How far a batch that holds start..i goes on. */
  function BatchEnd(sizes: seq<nat>, start: nat, i: nat, budget: int): (e: nat)
    requires start < i <= |sizes|
    ensures i <= e <= |sizes|
    decreases |sizes| - i
  {
    if i < |sizes| && Total(sizes, start, i) + sizes[i] <= budget then BatchEnd(sizes, start, i + 1, budget) else i
  }

  function Greedy(sizes: seq<nat>, from: nat, budget: int): seq<Range>
    requires from <= |sizes|
    decreases |sizes| - from
  {
    if from == |sizes| then [] else
    var e := BatchEnd(sizes, from, from + 1, budget);
    [Range(from, e)] + Greedy(sizes, e, budget)
  }

  /** Consecutive non-empty ranges that cover from..n. */
  predicate Partition(ranges: seq<Range>, from: nat, n: nat) {
    if ranges == [] then from == n
    else ranges[0].start == from < ranges[0].end <= n && Partition(ranges[1..], ranges[0].end, n)
  }

  /** A single item, or items that fit the budget together. */
  predicate Within(sizes: seq<nat>, r: Range, budget: int) {
    r.start < r.end <= |sizes| && (r.end - r.start == 1 || Total(sizes, r.start, r.end) <= budget)
  }

  predicate AllWithin(sizes: seq<nat>, ranges: seq<Range>, budget: int) {
    forall k :: 0 <= k < |ranges| ==> Within(sizes, ranges[k], budget)
  }

  lemma {:induction false} BatchWithin(sizes: seq<nat>, start: nat, i: nat, budget: int)
    requires start < i <= |sizes| && Within(sizes, Range(start, i), budget)
    ensures Within(sizes, Range(start, BatchEnd(sizes, start, i, budget)), budget)
    decreases |sizes| - i
  {
    if i < |sizes| && Total(sizes, start, i) + sizes[i] <= budget {
      BatchWithin(sizes, start, i + 1, budget);
    }
  }

  /** Greedy packing is a partition in order, and every batch is within the budget or a single item. */
  lemma {:induction false} GreedyPartitions(sizes: seq<nat>, from: nat, budget: int)
    requires from <= |sizes|
    ensures Partition(Greedy(sizes, from, budget), from, |sizes|)
    ensures AllWithin(sizes, Greedy(sizes, from, budget), budget)
    decreases |sizes| - from
  {
    if from < |sizes| {
      BatchWithin(sizes, from, from + 1, budget);
      GreedyPartitions(sizes, BatchEnd(sizes, from, from + 1, budget), budget);
    }
  }

  lemma {:induction false} TotalShrinks(sizes: seq<nat>, i: nat, j: nat, k: nat)
    requires i <= j <= k <= |sizes|
    ensures Total(sizes, j, k) <= Total(sizes, i, k)
  {
    if j < k {
      TotalShrinks(sizes, i, j, k - 1);
    } else {
      assert Total(sizes, j, k) == 0;
    }
  }

  lemma {:induction false} TotalGrows(sizes: seq<nat>, i: nat, j: nat, k: nat)
    requires i <= j <= k <= |sizes|
    ensures Total(sizes, i, j) <= Total(sizes, i, k)
  {
    if j < k {
      TotalGrows(sizes, i, j, k - 1);
    }
  }

  /** A greedy batch reaches at least as far as any batch from the same start. */
  lemma {:induction false} BatchReaches(sizes: seq<nat>, start: nat, i: nat, e: nat, budget: int)
    requires start < i <= e <= |sizes| && Within(sizes, Range(start, e), budget)
    ensures BatchEnd(sizes, start, i, budget) >= e
    decreases |sizes| - i
  {
    if i < e {
      TotalGrows(sizes, start, i + 1, e);
      BatchReaches(sizes, start, i + 1, e, budget);
    }
  }

  /** No partition in order with batches within the budget has fewer batches, even one that starts earlier. */
  lemma {:induction false} GreedyIsFewest(sizes: seq<nat>, ranges: seq<Range>, from: nat, later: nat, budget: int)
    requires from <= later <= |sizes|
    requires Partition(ranges, from, |sizes|) && AllWithin(sizes, ranges, budget)
    ensures |Greedy(sizes, later, budget)| <= |ranges|
  {
    if later < |sizes| {
      var r, rest := ranges[0], ranges[1..];
      assert Within(sizes, r, budget);
      assert AllWithin(sizes, rest, budget);
      if r.end <= later {
        GreedyIsFewest(sizes, rest, r.end, later, budget);
      } else {
        TotalShrinks(sizes, from, later, r.end);
        BatchReaches(sizes, later, later + 1, r.end, budget);
        GreedyIsFewest(sizes, rest, r.end, BatchEnd(sizes, later, later + 1, budget), budget);
      }
    }
  }

  /* ----- packing a longer list ----- */

  lemma {:induction false} TotalOfPrefix(a: seq<nat>, full: seq<nat>, i: nat, j: nat)
    requires a <= full && i <= j <= |a|
    ensures Total(a, i, j) == Total(full, i, j)
  {
    if i < j {
      TotalOfPrefix(a, full, i, j - 1);
    }
  }

  lemma {:induction false} BatchEndOfPrefix(a: seq<nat>, full: seq<nat>, start: nat, i: nat, budget: int)
    requires a <= full && start < i <= |a|
    ensures var e := BatchEnd(a, start, i, budget);
            BatchEnd(full, start, i, budget) >= e && (e < |a| ==> BatchEnd(full, start, i, budget) == e)
    decreases |a| - i
  {
    TotalOfPrefix(a, full, start, i);
    if i < |a| && Total(a, start, i) + a[i] <= budget {
      BatchEndOfPrefix(a, full, start, i + 1, budget);
    }
  }

  lemma GreedyStep(sizes: seq<nat>, from: nat, budget: int)
    requires from < |sizes|
    ensures var e := BatchEnd(sizes, from, from + 1, budget);
            Greedy(sizes, from, budget) == [Range(from, e)] + Greedy(sizes, e, budget)
  {
  }

  /** The same batches, except perhaps the last one of the shorter list. */
  predicate SameButLast(g: seq<Range>, h: seq<Range>) {
    |g| <= |h| && forall k :: 0 <= k < |g| - 1 ==> g[k] == h[k]
  }

  /** More items leave all batches but the last one as they were. */
  lemma {:induction false} GreedyOfPrefix(a: seq<nat>, full: seq<nat>, from: nat, budget: int)
    requires a <= full && from <= |a|
    ensures SameButLast(Greedy(a, from, budget), Greedy(full, from, budget))
    decreases |a| - from
  {
    if from < |a| {
      GreedyStep(a, from, budget);
      GreedyStep(full, from, budget);
      hide Greedy;
      var e := BatchEnd(a, from, from + 1, budget);
      BatchEndOfPrefix(a, full, from, from + 1, budget);
      if e < |a| {
        GreedyOfPrefix(a, full, e, budget);
      } else {
        GreedyEnds(a, budget);
      }
    }
  }

  lemma GreedyEnds(sizes: seq<nat>, budget: int)
    ensures Greedy(sizes, |sizes|, budget) == []
  {
  }

  /* ----- batchBySize ----- */

  function ResourceSizes(live: seq<string>, targets: seq<string>): seq<nat>
    requires |live| <= |targets|
  {
    seq(|live|, i requires 0 <= i < |live| => |live[i]| + |targets[i]|)
  }

  lemma BatchCloses(sizes: seq<nat>, maxBytes: int, batches: seq<Range>, start: nat, i: nat)
    requires start < i <= |sizes| &&
        BatchEnd(sizes, start, start + 1, maxBytes) == BatchEnd(sizes, start, i, maxBytes) == i
    ensures (batches + [Range(start, i)]) + Greedy(sizes, i, maxBytes) == batches + Greedy(sizes, start, maxBytes)
  {
    hide Greedy, BatchEnd, Total;
    GreedyStep(sizes, start, maxBytes);
  }

  method BatchBySize(live: seq<string>, targets: seq<string>, maxBytes: int) returns (batches: seq<Range>)
    requires |live| <= |targets|
    ensures batches == Greedy(ResourceSizes(live, targets), 0, maxBytes)
  {
    ghost var sizes := ResourceSizes(live, targets);
    hide Greedy;
    batches := [];
    var i := 0;
    while i < |live|
      invariant 0 <= i <= |live|
      invariant batches + Greedy(sizes, i, maxBytes) == Greedy(sizes, 0, maxBytes)
    {
      var start, size := i, 0;
      while i < |live|
        invariant start <= i <= |live|
        invariant size == Total(sizes, start, i)
        invariant i > start ==> BatchEnd(sizes, start, i, maxBytes) == BatchEnd(sizes, start, start + 1, maxBytes)
        invariant i == start ==> start < |live|
      {
        var resourceSize := |live[i]| + |targets[i]|;
        if size + resourceSize > maxBytes && i > start {
          break;
        }
        size := size + resourceSize;
        i := i + 1;
      }
      BatchCloses(sizes, maxBytes, batches, start, i);
      batches := batches + [Range(start, i)];
    }
    GreedyEnds(sizes, maxBytes);
  }

  /**
   * Requests cover the resources in order, stay under the limit unless a single one is over it, and are as
   * few as that allows.
   */
  lemma BatchesAreFewest(live: seq<string>, targets: seq<string>, maxBytes: int, others: seq<Range>)
    requires |live| <= |targets|
    ensures var sizes := ResourceSizes(live, targets);
            var batches := Greedy(sizes, 0, maxBytes);
            && Partition(batches, 0, |live|) && AllWithin(sizes, batches, maxBytes)
            && (Partition(others, 0, |live|) && AllWithin(sizes, others, maxBytes) ==> |batches| <= |others|)
  {
    var sizes := ResourceSizes(live, targets);
    GreedyPartitions(sizes, 0, maxBytes);
    if Partition(others, 0, |live|) && AllWithin(sizes, others, maxBytes) {
      GreedyIsFewest(sizes, others, 0, 0, maxBytes);
    }
  }

  /** The size of a batch is what its live and target resources take together. */
  lemma {:induction false} BatchBytes(live: seq<string>, targets: seq<string>, start: nat, end: nat)
    requires start <= end <= |live| <= |targets|
    ensures Total(ResourceSizes(live, targets), start, end) ==
            |Concat(live[start..end])| + |Concat(targets[start..end])|
    decreases end
  {
    hide Concat;
    if start == end {
      assert live[start..end] == [] && targets[start..end] == [];
      NothingInConcat();
    } else {
      BatchBytes(live, targets, start, end - 1);
      assert live[start..end] == live[start..end - 1] + [live[end - 1]];
      assert targets[start..end] == targets[start..end - 1] + [targets[end - 1]];
      ConcatSnoc(live[start..end - 1], live[end - 1]);
      ConcatSnoc(targets[start..end - 1], targets[end - 1]);
    }
  }

  lemma NothingInConcat()
    ensures Concat([]) == ""
  {
  }

  /* ----- packSections ----- */

  function SectionSizes(sections: seq<string>): seq<nat> {
    seq(|sections|, i requires 0 <= i < |sections| => |sections[i]|)
  }

  function Slice(sections: seq<string>, r: Range): seq<string> {
    if r.start <= r.end <= |sections| then sections[r.start..r.end] else []
  }

  function Slices(sections: seq<string>, ranges: seq<Range>): seq<seq<string>> {
    seq(|ranges|, k requires 0 <= k < |ranges| => Slice(sections, ranges[k]))
  }

  lemma SlicesSnoc(all: seq<string>, done: seq<Range>, r: Range)
    ensures Slices(all, done + [r]) == Slices(all, done) + [Slice(all, r)]
  {
  }

  function Pack(sections: seq<string>, budget: int): seq<seq<string>> {
    Slices(sections, Greedy(SectionSizes(sections), 0, budget))
  }

  /** After i sections: the chunks so far and those that greedy packing makes from start are all chunks. */
  predicate Packed(sizes: seq<nat>, budget: int, ranges: seq<Range>, start: nat, i: nat) {
    && start <= i <= |sizes| && (i > 0 ==> start < i) && (i == 0 ==> ranges == [])
    && ranges + Greedy(sizes, start, budget) == Greedy(sizes, 0, budget)
    && (start < i ==> BatchEnd(sizes, start, i, budget) == BatchEnd(sizes, start, start + 1, budget))
  }

  lemma PackedGrows(sizes: seq<nat>, budget: int, ranges: seq<Range>, start: nat, i: nat)
    requires i < |sizes| && Packed(sizes, budget, ranges, start, i)
    requires start < i ==> Total(sizes, start, i) + sizes[i] <= budget
    ensures Packed(sizes, budget, ranges, start, i + 1)
  {
    hide Greedy;
  }

  lemma PackedCloses(sizes: seq<nat>, budget: int, ranges: seq<Range>, start: nat, i: nat)
    requires start < i < |sizes| && Packed(sizes, budget, ranges, start, i)
    requires Total(sizes, start, i) + sizes[i] > budget
    ensures Packed(sizes, budget, ranges + [Range(start, i)], i, i + 1)
  {
    hide Greedy;
    GreedyStep(sizes, start, budget);
    assert BatchEnd(sizes, start, i, budget) == i;
    hide Total, BatchEnd;
    assert (ranges + [Range(start, i)]) + Greedy(sizes, i, budget) ==
      ranges + ([Range(start, i)] + Greedy(sizes, i, budget));
  }

  lemma PackedEnds(sizes: seq<nat>, budget: int, ranges: seq<Range>, start: nat)
    requires Packed(sizes, budget, ranges, start, |sizes|)
    ensures Greedy(sizes, 0, budget) == if sizes == [] then [] else ranges + [Range(start, |sizes|)]
  {
    GreedyEnds(sizes, budget);
    if sizes != [] {
      GreedyStep(sizes, start, budget);
    }
  }

  method PackSections(sections: seq<string>, budget: int) returns (chunks: seq<seq<string>>)
    ensures chunks == Pack(sections, budget)
  {
    ghost var sizes := SectionSizes(sections);
    assert Slices(sections, []) == [] && Packed(sizes, budget, [], 0, 0);
    hide Greedy, Packed, Slices;
    ghost var ranges, start := [], 0;
    chunks := [];
    var current: seq<string>, currentLen := [], 0;
    for i := 0 to |sections|
      invariant start <= i && (i > 0 ==> start < i) && Packed(sizes, budget, ranges, start, i)
      invariant chunks == Slices(sections, ranges)
      invariant current == sections[start..i] && currentLen == Total(sizes, start, i)
    {
      var section := sections[i];
      if |current| > 0 && currentLen + |section| > budget {
        PackedCloses(sizes, budget, ranges, start, i);
        SlicesSnoc(sections, ranges, Range(start, i));
        chunks := chunks + [current];
        ranges, start := ranges + [Range(start, i)], i;
        current, currentLen := [], 0;
      } else {
        PackedGrows(sizes, budget, ranges, start, i);
      }
      current := current + [section];
      currentLen := currentLen + |section|;
    }
    PackedEnds(sizes, budget, ranges, start);
    if |current| > 0 {
      SlicesSnoc(sections, ranges, Range(start, |sections|));
      chunks := chunks + [current];
    }
  }

  function Flatten<T>(groups: seq<seq<T>>): seq<T> {
    if groups == [] then [] else groups[0] + Flatten(groups[1..])
  }

  lemma {:induction false} FlattenAppend<T>(a: seq<seq<T>>, b: seq<seq<T>>)
    ensures Flatten(a + b) == Flatten(a) + Flatten(b)
  {
    if a == [] {
      assert a + b == b;
    } else {
      FlattenAppend(a[1..], b);
      assert (a + b)[0] == a[0] && (a + b)[1..] == a[1..] + b;
    }
  }

  lemma {:induction false} SlicesFlatten(sections: seq<string>, ranges: seq<Range>, from: nat)
    requires from <= |sections| && Partition(ranges, from, |sections|)
    ensures Flatten(Slices(sections, ranges)) == sections[from..]
  {
    if ranges != [] {
      SlicesFlatten(sections, ranges[1..], ranges[0].end);
      assert Slices(sections, ranges)[1..] == Slices(sections, ranges[1..]);
    }
  }

  function Length(sections: seq<string>): nat {
    if sections == [] then 0 else Length(sections[..|sections| - 1]) + |sections[|sections| - 1]|
  }

  lemma {:induction false} LengthIsTotal(sections: seq<string>, i: nat, j: nat)
    requires i <= j <= |sections|
    ensures Length(sections[i..j]) == Total(SectionSizes(sections), i, j)
  {
    if i < j {
      LengthIsTotal(sections, i, j - 1);
      assert sections[i..j][..j - i - 1] == sections[i..j - 1];
    }
  }

  predicate ChunkWithin(chunk: seq<string>, budget: int) {
    |chunk| == 1 || (|chunk| > 1 && Length(chunk) <= budget)
  }

  /** Chunks hold all sections in order; each is a single section or within the budget. */
  lemma PackKeepsSections(sections: seq<string>, budget: int)
    ensures Flatten(Pack(sections, budget)) == sections
    ensures forall k :: 0 <= k < |Pack(sections, budget)| ==> ChunkWithin(Pack(sections, budget)[k], budget)
  {
    var sizes := SectionSizes(sections);
    var ranges := Greedy(sizes, 0, budget);
    GreedyPartitions(sizes, 0, budget);
    SlicesFlatten(sections, ranges, 0);
    forall k | 0 <= k < |ranges|
      ensures ChunkWithin(Pack(sections, budget)[k], budget)
    {
      assert Within(sizes, ranges[k], budget);
      LengthIsTotal(sections, ranges[k].start, ranges[k].end);
    }
  }

  function RangesOf(chunks: seq<seq<string>>, from: nat): seq<Range> {
    if chunks == [] then [] else [Range(from, from + |chunks[0]|)] + RangesOf(chunks[1..], from + |chunks[0]|)
  }

  lemma FirstChunk(chunks: seq<seq<string>>, sections: seq<string>, from: nat)
    requires chunks != [] && from <= |sections| && Flatten(chunks) == sections[from..]
    ensures var e := from + |chunks[0]|;
            e <= |sections| && chunks[0] == sections[from..e] && Flatten(chunks[1..]) == sections[e..]
  {
    var rest := Flatten(chunks[1..]);
    assert chunks[0] + rest == sections[from..];
    hide Flatten;
    var n := |chunks[0]|;
    assert (chunks[0] + rest)[..n] == chunks[0] && (chunks[0] + rest)[n..] == rest;
    assert sections[from..][..n] == sections[from..from + n];
    assert sections[from..][n..] == sections[from + n..];
  }

  lemma {:induction false} RangesOfPartition(chunks: seq<seq<string>>, sections: seq<string>, from: nat, budget: int)
    requires from <= |sections| && Flatten(chunks) == sections[from..]
    requires forall k :: 0 <= k < |chunks| ==> ChunkWithin(chunks[k], budget)
    ensures var ranges := RangesOf(chunks, from);
            && |ranges| == |chunks|
            && Partition(ranges, from, |sections|)
            && AllWithin(SectionSizes(sections), ranges, budget)
  {
    if chunks != [] {
      FirstChunk(chunks, sections, from);
      hide Flatten, Length;
      var e := from + |chunks[0]|;
      RangesOfPartition(chunks[1..], sections, e, budget);
      LengthIsTotal(sections, from, e);
      assert ChunkWithin(chunks[0], budget);
      assert Within(SectionSizes(sections), Range(from, e), budget);
    }
  }

  /** Any other way to cut the sections, in order, into chunks like these takes at least as many. */
  lemma PackIsFewest(sections: seq<string>, budget: int, chunks: seq<seq<string>>)
    requires Flatten(chunks) == sections
    requires forall k :: 0 <= k < |chunks| ==> ChunkWithin(chunks[k], budget)
    ensures |Pack(sections, budget)| <= |chunks|
  {
    assert sections[0..] == sections;
    RangesOfPartition(chunks, sections, 0, budget);
    GreedyIsFewest(SectionSizes(sections), RangesOf(chunks, 0), 0, 0, budget);
  }

  /** Packing more sections leaves all chunks but the last one as they were. */
  lemma PackOfPrefix(sections: seq<string>, more: seq<string>, budget: int)
    ensures var g, h := Pack(sections, budget), Pack(sections + more, budget);
            |g| <= |h| && forall k :: 0 <= k < |g| - 1 ==> g[k] == h[k]
  {
    var full := sections + more;
    var a, b := SectionSizes(sections), SectionSizes(full);
    assert a <= b;
    GreedyOfPrefix(a, b, 0, budget);
    GreedyPartitions(a, 0, budget);
    hide Greedy, Total, SectionSizes;
    var g, h := Greedy(a, 0, budget), Greedy(b, 0, budget);
    forall k | 0 <= k < |g| - 1
      ensures Slice(sections, g[k]) == Slice(full, h[k])
    {
      assert Within(a, g[k], budget) && g[k] == h[k];
      SliceOfPrefix(sections, more, g[k]);
    }
  }

  lemma SliceOfPrefix(sections: seq<string>, more: seq<string>, r: Range)
    requires r.start <= r.end <= |sections|
    ensures Slice(sections + more, r) == Slice(sections, r)
  {
  }
}
