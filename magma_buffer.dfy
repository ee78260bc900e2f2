// Page pinning and CPU mapping of a Magma buffer on Zircon
// (lib/magma/src/magma_util/platform/zircon/zircon_platform_buffer.cc).
//
// A buffer keeps an 8-bit pin count per page in a sparse array of chunks of
// kPinCounts counters; a chunk exists only while one of its pages is pinned.
// The VMO operations (commit, lock, unlock, lookup) and the VMAR calls are
// kernel calls: their outcomes are parameters of the methods that make them.

module MagmaPlatformBuffer {
  import opened Base
  import opened Zx

  const kPageSize: nat := 4096

  /** PinCountArray::kPinCounts: one page of 8-bit counters. */
  const kPinCounts: nat := 4096

  /** The largest value of an 8-bit pin count. */
  const kMaxPinCount: nat := 255

  function Sum(xs: seq<int>): int
  {
    if |xs| == 0 then 0 else Sum(xs[..|xs| - 1]) + xs[|xs| - 1]
  }

  lemma {:induction false} SumUpdate(xs: seq<int>, i: nat, v: int)
    requires i < |xs|
    ensures Sum(xs[i := v]) == Sum(xs) - xs[i] + v
  {
    var n := |xs|;
    if i < n - 1 {
      assert xs[i := v][..n - 1] == xs[..n - 1][i := v];
      SumUpdate(xs[..n - 1], i, v);
    } else {
      assert xs[i := v][..n - 1] == xs[..n - 1];
    }
  }

  /** A sum of counts is positive exactly when one of the counts is. */
  lemma {:induction false} SumPositive(xs: seq<int>)
    requires forall i :: 0 <= i < |xs| ==> xs[i] >= 0
    ensures Sum(xs) >= 0
    ensures Sum(xs) > 0 <==> exists i :: 0 <= i < |xs| && xs[i] > 0
  {
    if |xs| > 0 {
      var n := |xs|;
      SumPositive(xs[..n - 1]);
      if Sum(xs) > 0 && xs[n - 1] <= 0 {
        var i :| 0 <= i < n - 1 && xs[..n - 1][i] > 0;
        assert xs[i] > 0;
      }
      if exists i :: 0 <= i < n && xs[i] > 0 {
        var i :| 0 <= i < n && xs[i] > 0;
        if i < n - 1 {
          assert xs[..n - 1][i] > 0;
        }
      }
    }
  }

  lemma {:induction false} SumZeros(n: nat)
    ensures Sum(seq(n, _ => 0)) == 0
  {
    if n > 0 {
      assert seq(n, _ => 0)[..n - 1] == seq(n - 1, _ => 0);
      SumZeros(n - 1);
    }
  }

  // ---------------------------------------------------------------------
  // PinCountArray: the counters of one chunk

  /**
   * A chunk of pin counts and their total. The sparse array owns each chunk
   * alone, so a chunk is a value the sparse array replaces.
   */
  datatype PinCountArray = PinCountArray(counts: seq<int>, total: int)

  predicate ChunkValid(c: PinCountArray)
  {
    && |c.counts| == kPinCounts
    && (forall i :: 0 <= i < |c.counts| ==> 0 <= c.counts[i] <= kMaxPinCount)
    && c.total == Sum(c.counts)
  }

  function NewPinCountArray(): (c: PinCountArray)
    ensures ChunkValid(c) && c.total == 0
    ensures forall i :: 0 <= i < kPinCounts ==> c.counts[i] == 0
  {
    SumZeros(kPinCounts);
    PinCountArray(seq(kPinCounts, _ => 0), 0)
  }

  /** PinCountArray::incr: the counter and the total go up by one; an 8-bit counter must not be full. */
  function ChunkIncr(c: PinCountArray, i: nat): (r: PinCountArray)
    requires ChunkValid(c) && i < kPinCounts && c.counts[i] < kMaxPinCount
    ensures ChunkValid(r) && r.total == c.total + 1
    ensures r.counts[i] == c.counts[i] + 1
    ensures forall j :: 0 <= j < kPinCounts && j != i ==> r.counts[j] == c.counts[j]
  {
    SumUpdate(c.counts, i, c.counts[i] + 1);
    PinCountArray(c.counts[i := c.counts[i] + 1], c.total + 1)
  }

  /** PinCountArray::decr: -1 at count 0 with nothing changed; otherwise the new count, and the total goes down by one. */
  function ChunkDecr(c: PinCountArray, i: nat): (r: (PinCountArray, int))
    requires ChunkValid(c) && i < kPinCounts
    ensures ChunkValid(r.0)
    ensures c.counts[i] == 0 ==> r == (c, -1)
    ensures c.counts[i] > 0 ==>
      && r.1 == c.counts[i] - 1 && r.0.counts[i] == r.1 && r.0.total == c.total - 1
      && forall j :: 0 <= j < kPinCounts && j != i ==> r.0.counts[j] == c.counts[j]
  {
    if c.counts[i] == 0 then (c, -1)
    else
      SumUpdate(c.counts, i, c.counts[i] - 1);
      (PinCountArray(c.counts[i := c.counts[i] - 1], c.total - 1), c.counts[i] - 1)
  }

  // ---------------------------------------------------------------------
  // PinCountSparseArray

  function Total(c: Option<PinCountArray>): int
  {
    if c.None? then 0 else c.value.total
  }

  function Totals(cs: seq<Option<PinCountArray>>): seq<int>
  {
    seq(|cs|, i requires 0 <= i < |cs| => Total(cs[i]))
  }

  lemma TotalsUpdate(cs: seq<Option<PinCountArray>>, a: nat, c: Option<PinCountArray>)
    requires a < |cs|
    ensures Sum(Totals(cs[a := c])) == Sum(Totals(cs)) - Total(cs[a]) + Total(c)
  {
    assert Totals(cs[a := c]) == Totals(cs)[a := Total(c)];
    SumUpdate(Totals(cs), a, Total(c));
  }

  /** The number of chunks for pageCount pages: the quotient rounded up. */
  function ChunkCount(pageCount: nat): nat
  {
    (pageCount + kPinCounts - 1) / kPinCounts
  }

  /** The pin count of page p in a chunk sequence: 0 when its chunk is absent. */
  function Count(sparse: seq<Option<PinCountArray>>, p: nat): int
    requires p < |sparse| * kPinCounts
  {
    var a := p / kPinCounts;
    if sparse[a].None? || |sparse[a].value.counts| != kPinCounts then 0
    else sparse[a].value.counts[p - kPinCounts * a]
  }

  /** Every page of [lo, hi) has one pin fewer in `after` than in `before`, and every other page as many. */
  predicate Decremented(before: seq<Option<PinCountArray>>, after: seq<Option<PinCountArray>>, lo: nat, hi: nat)
  {
    && |before| == |after|
    && forall q :: 0 <= q < |before| * kPinCounts ==>
         Count(after, q) == Count(before, q) - (if lo <= q < hi then 1 else 0)
  }

  /**
   * The outcome of unlocking page by page: each page of [start, start +
   * count) loses a pin and is unlocked if that was its last, up to and
   * including the first page whose unlock fails; the walk succeeds when no
   * unlock fails.
   */
  predicate UnpinnedEach(before: seq<Option<PinCountArray>>, after: seq<Option<PinCountArray>>,
                         start: nat, count: nat, pageUnlock: nat -> Status, ok: bool)
    requires start + count <= |before| * kPinCounts
  {
    && (ok <==> forall q :: start <= q < start + count && Count(before, q) == 1 ==> Tolerated(pageUnlock(q)))
    && (ok ==> Decremented(before, after, start, start + count))
    && (!ok ==> exists f :: (
          && start <= f < start + count
          && Count(before, f) == 1 && !Tolerated(pageUnlock(f))
          && (forall q :: start <= q < f && Count(before, q) == 1 ==> Tolerated(pageUnlock(q)))
          && Decremented(before, after, start, f + 1)))
  }

  class PinCountSparseArray {
    var sparse: seq<Option<PinCountArray>>
    var totalPinCount: int

    /** Every chunk present is well formed and has a pinned page; the total is the sum of the chunk totals. */
    predicate Valid()
      reads this
    {
      && (forall a :: 0 <= a < |sparse| && sparse[a].Some? ==> ChunkValid(sparse[a].value) && sparse[a].value.total > 0)
      && totalPinCount == Sum(Totals(sparse))
    }

    /** The pages the array has counters for. */
    function Capacity(): nat
      reads this
    {
      |sparse| * kPinCounts
    }

    /** PinCountSparseArray::Create: ceil(pageCount / kPinCounts) absent chunks. */
    constructor (pageCount: nat)
      ensures Valid() && totalPinCount == 0
      ensures |sparse| == ChunkCount(pageCount) && Capacity() >= pageCount
      ensures forall a :: 0 <= a < |sparse| ==> sparse[a].None?
    {
      var arraySize := pageCount / kPinCounts;
      if pageCount % kPinCounts != 0 {
        arraySize := arraySize + 1;
      }
      sparse := seq(arraySize, _ => None);
      totalPinCount := 0;
      new;
      assert Totals(sparse) == seq(arraySize, _ => 0);
      SumZeros(arraySize);
    }

    /** pin_count: 0 for a page whose chunk is absent. */
    function PinCount(p: nat): (r: int)
      reads this
      requires Valid() && p < Capacity()
      ensures 0 <= r <= kMaxPinCount
      ensures sparse[p / kPinCounts].None? ==> r == 0
    {
      Count(sparse, p)
    }

    /** incr: the page's count and the total go up by one, allocating its chunk if absent. */
    method Incr(p: nat)
      requires Valid() && p < Capacity() && Count(sparse, p) < kMaxPinCount
      modifies this
      ensures Valid() && |sparse| == old(|sparse|)
      ensures Count(sparse, p) == old(Count(sparse, p)) + 1
      ensures forall q :: 0 <= q < Capacity() && q != p ==> Count(sparse, q) == old(Count(sparse, q))
      ensures totalPinCount == old(totalPinCount) + 1
    {
      var a := p / kPinCounts;
      var offset := p - kPinCounts * a;
      var chunk := if sparse[a].None? then NewPinCountArray() else sparse[a].value;
      var chunk' := ChunkIncr(chunk, offset);
      TotalsUpdate(sparse, a, Some(chunk'));
      sparse := sparse[a := Some(chunk')];
      totalPinCount := totalPinCount + 1;
    }

    /**
     * decr: for a pinned page, its count and the total go down by one and the
     * new count is returned, and a chunk whose total reaches 0 is freed. For
     * an unpinned page nothing changes, and the result is -1 if the page's
     * chunk exists and 0 (the `false` of the failure path) if it does not.
     */
    method Decr(p: nat) returns (r: int)
      requires Valid() && p < Capacity()
      modifies this
      ensures Valid() && |sparse| == old(|sparse|)
      ensures old(Count(sparse, p)) == 0 ==>
        && sparse == old(sparse) && totalPinCount == old(totalPinCount)
        && r == (if old(sparse[p / kPinCounts]).None? then 0 else -1)
      ensures old(Count(sparse, p)) > 0 ==>
        && r == old(Count(sparse, p)) - 1 && Count(sparse, p) == r
        && (forall q :: 0 <= q < Capacity() && q != p ==> Count(sparse, q) == old(Count(sparse, q)))
        && totalPinCount == old(totalPinCount) - 1
    {
      var a := p / kPinCounts;
      var offset := p - kPinCounts * a;
      if sparse[a].None? {
        return 0;
      }
      var (chunk', ret) := ChunkDecr(sparse[a].value, offset);
      if ret < 0 {
        return ret;
      }
      var entry := if chunk'.total == 0 then None else Some(chunk');
      TotalsUpdate(sparse, a, entry);
      if chunk'.total == 0 {
        SumPositive(chunk'.counts);
      }
      sparse := sparse[a := entry];
      totalPinCount := totalPinCount - 1;
      r := ret;
    }
  }

  /** The total pin count is positive exactly when some page is pinned. */
  lemma TotalCountsPinnedPages(s: PinCountSparseArray)
    requires s.Valid()
    ensures s.totalPinCount >= 0
    ensures s.totalPinCount > 0 <==> exists p :: 0 <= p < s.Capacity() && Count(s.sparse, p) > 0
  {
    var ts := Totals(s.sparse);
    SumPositive(ts);
    if s.totalPinCount > 0 {
      var a :| 0 <= a < |ts| && ts[a] > 0;
      var c := s.sparse[a].value;
      SumPositive(c.counts);
      var off :| 0 <= off < |c.counts| && c.counts[off] > 0;
      var p := a * kPinCounts + off;
      assert p / kPinCounts == a;
      assert Count(s.sparse, p) > 0;
    }
    if exists p :: 0 <= p < s.Capacity() && Count(s.sparse, p) > 0 {
      var p :| 0 <= p < s.Capacity() && Count(s.sparse, p) > 0;
      var a := p / kPinCounts;
      assert ts[a] > 0;
    }
  }

  // ---------------------------------------------------------------------
  // The buffer

  /** A kernel operation that succeeded, or that the VMO does not support, which the buffer tolerates. */
  predicate Tolerated(status: Status)
  {
    status == Ok || status == ErrNotSupported
  }

  /**
   * The range check of CommitPages, PinPages and UnpinPages as written:
   * `(start_page_index + page_count) * PAGE_SIZE`, computed in 32-bit
   * unsigned arithmetic, at most the size.
   */
  predicate RangeCheckAsWritten(start: nat, count: nat, size: nat)
  {
    ((start + count) % TWO_32) * kPageSize % TWO_32 <= size
  }

  /** The range check evidently intended: the last page of the range lies in the buffer. */
  predicate RangeCheck(start: nat, count: nat, size: nat)
  {
    (start + count) * kPageSize <= size
  }

  /** The check as written lets a range of pages far beyond a one-page buffer through. */
  lemma RangeCheckWraps()
    ensures RangeCheckAsWritten(0xFFFFF, 1, kPageSize)
    ensures !RangeCheck(0xFFFFF, 1, kPageSize)
  {
  }

  /** Where the 32-bit product does not wrap, the check as written is the intended one. */
  lemma RangeCheckAgrees(start: nat, count: nat, size: nat)
    requires (start + count) * kPageSize < TWO_32
    ensures RangeCheckAsWritten(start, count, size) <==> RangeCheck(start, count, size)
  {
  }

  /** magma::is_pow2 for a non-zero value. */
  predicate PowerOfTwo(x: nat)
    decreases x
  {
    x == 1 || (x >= 2 && x % 2 == 0 && PowerOfTwo(x / 2))
  }

  /** CommitPages: true for an empty range; otherwise the range must fit and the commit must succeed. */
  function CommitPages(start: nat, count: nat, size: nat, commit: Status): (ok: bool)
    ensures count == 0 ==> ok
    ensures count > 0 ==> (ok <==> RangeCheck(start, count, size) && commit == Ok)
  {
    if count == 0 then true
    else if !RangeCheck(start, count, size) then false
    else commit == Ok
  }

  class ZirconPlatformBuffer {
    const size: nat
    const pins: PinCountSparseArray
    var mapCount: nat

    function NumPages(): nat { size / kPageSize }

    predicate Valid()
      reads this, pins
    {
      size % kPageSize == 0 && pins.Valid() && pins.Capacity() >= NumPages()
    }

    /** A buffer of `size` bytes (a whole number of pages), unmapped and with no page pinned. */
    constructor (size: nat)
      requires size % kPageSize == 0
      ensures Valid() && this.size == size && mapCount == 0 && fresh(pins)
      ensures pins.totalPinCount == 0
      ensures forall p :: 0 <= p < pins.Capacity() ==> Count(pins.sparse, p) == 0
    {
      this.size := size;
      pins := new PinCountSparseArray(size / kPageSize);
      mapCount := 0;
    }

    /**
     * PinPages: true for an empty range; false, with no count changed, for a
     * range past the end or when committing or locking the pages fails;
     * otherwise every page of the range gains one pin.
     */
    method PinPages(start: nat, count: nat, commit: Status, lock: Status) returns (ok: bool)
      requires Valid()
      requires RangeCheck(start, count, size) ==> forall q :: start <= q < start + count ==> Count(pins.sparse, q) < kMaxPinCount
      modifies pins
      ensures Valid() && |pins.sparse| == old(|pins.sparse|)
      ensures ok <==> count == 0 || (RangeCheck(start, count, size) && commit == Ok && Tolerated(lock))
      ensures !ok || count == 0 ==> pins.sparse == old(pins.sparse) && pins.totalPinCount == old(pins.totalPinCount)
      ensures ok ==>
        && pins.totalPinCount == old(pins.totalPinCount) + count
        && forall q :: 0 <= q < pins.Capacity() ==>
             Count(pins.sparse, q) == old(Count(pins.sparse, q)) + (if start <= q < start + count then 1 else 0)
    {
      if count == 0 {
        return true;
      }
      if !RangeCheck(start, count, size) {
        return false;
      }
      if !CommitPages(start, count, size, commit) {
        return false;
      }
      if !Tolerated(lock) {
        return false;
      }
      var i := 0;
      while i < count
        invariant i <= count && pins.Valid() && |pins.sparse| == old(|pins.sparse|)
        invariant pins.totalPinCount == old(pins.totalPinCount) + i
        invariant forall q :: 0 <= q < pins.Capacity() ==>
          Count(pins.sparse, q) == old(Count(pins.sparse, q)) + (if start <= q < start + i then 1 else 0)
      {
        pins.Incr(start + i);
        i := i + 1;
      }
      ok := true;
    }

    /** Whether every page of the range is pinned (the check loop of UnpinPages and MapPageRangeBus). */
    predicate AllPinned(start: nat, count: nat)
      reads this, pins
      requires Valid() && start + count <= pins.Capacity()
    {
      forall q :: start <= q < start + count ==> Count(pins.sparse, q) > 0
    }

    method CountPinned(start: nat, count: nat) returns (allPinned: bool, lastPins: nat)
      requires Valid() && start + count <= pins.Capacity()
      ensures allPinned <==> AllPinned(start, count)
      ensures allPinned ==> (lastPins == count <==> forall q :: start <= q < start + count ==> Count(pins.sparse, q) == 1)
    {
      lastPins := 0;
      var i := 0;
      while i < count
        invariant i <= count && lastPins <= i
        invariant forall q :: start <= q < start + i ==> Count(pins.sparse, q) > 0
        invariant lastPins == i <==> forall q :: start <= q < start + i ==> Count(pins.sparse, q) == 1
      {
        var pinCount := pins.PinCount(start + i);
        if pinCount == 0 {
          return false, lastPins;
        }
        if pinCount == 1 {
          lastPins := lastPins + 1;
        }
        i := i + 1;
      }
      allPinned := true;
    }

    /**
     * UnpinPages: true for an empty range; false, with no count changed, for
     * a range past the end or with an unpinned page. Otherwise every page of
     * the range loses one pin: when each had exactly one, the whole range is
     * unlocked at once; otherwise each page reaching 0 is unlocked on its
     * own, and the first unlock that fails stops the walk after its page.
     */
    method UnpinPages(start: nat, count: nat, rangeUnlock: Status, pageUnlock: nat -> Status) returns (ok: bool)
      requires Valid()
      modifies pins
      ensures Valid() && |pins.sparse| == old(|pins.sparse|)
      ensures count == 0 ==> ok
      ensures count == 0 || !RangeCheck(start, count, size) || !old(AllPinned(start, count)) ==>
        && ok == (count == 0)
        && pins.sparse == old(pins.sparse) && pins.totalPinCount == old(pins.totalPinCount)
      ensures count > 0 && RangeCheck(start, count, size) && old(AllPinned(start, count)) ==>
        if forall q :: start <= q < start + count ==> old(Count(pins.sparse, q)) == 1 then
          && (ok <==> Tolerated(rangeUnlock))
          && Decremented(old(pins.sparse), pins.sparse, start, start + count)
        else
          UnpinnedEach(old(pins.sparse), pins.sparse, start, count, pageUnlock, ok)
    {
      if count == 0 {
        return true;
      }
      if !RangeCheck(start, count, size) {
        return false;
      }
      var allPinned, lastPins := CountPinned(start, count);
      if !allPinned {
        return false;
      }
      ghost var before := pins.sparse;
      if lastPins == count {
        DecrementRange(start, count);
        return Tolerated(rangeUnlock);
      }
      ok := UnpinEach(start, count, pageUnlock);
    }

    /** The page-by-page walk of UnpinPages. */
    method UnpinEach(start: nat, count: nat, pageUnlock: nat -> Status) returns (ok: bool)
      requires Valid() && start + count <= pins.Capacity() && AllPinned(start, count)
      modifies pins
      ensures Valid() && |pins.sparse| == old(|pins.sparse|)
      ensures UnpinnedEach(old(pins.sparse), pins.sparse, start, count, pageUnlock, ok)
    {
      ghost var before := pins.sparse;
      var p := start;
      while p < start + count
        invariant start <= p <= start + count && pins.Valid() && |pins.sparse| == |before|
        invariant forall q :: start <= q < start + count ==> Count(before, q) > 0
        invariant Decremented(before, pins.sparse, start, p)
        invariant forall q :: start <= q < p && Count(before, q) == 1 ==> Tolerated(pageUnlock(q))
      {
        var r := pins.Decr(p);
        if r == 0 && !Tolerated(pageUnlock(p)) {
          assert Count(before, p) == 1 && Decremented(before, pins.sparse, start, p + 1);
          return false;
        }
        p := p + 1;
      }
      ok := true;
    }

    /** The decrement loop of the all-at-once case. */
    method DecrementRange(start: nat, count: nat)
      requires Valid() && start + count <= pins.Capacity() && AllPinned(start, count)
      modifies pins
      ensures Valid() && |pins.sparse| == old(|pins.sparse|)
      ensures Decremented(old(pins.sparse), pins.sparse, start, start + count)
    {
      ghost var before := pins.sparse;
      var i := 0;
      while i < count
        invariant i <= count && pins.Valid() && |pins.sparse| == |before|
        invariant forall q :: start <= q < start + count ==> Count(before, q) > 0
        invariant Decremented(before, pins.sparse, start, start + i)
      {
        var r := pins.Decr(start + i);
        i := i + 1;
      }
    }

    /**
     * MapCpu: the alignment must be a multiple of the page size and a power
     * of two if non-zero; the first mapping must also get a VMAR and map the
     * VMO into it. Each success counts one more mapping.
     */
    method MapCpu(alignment: nat, mapping: Status) returns (ok: bool)
      requires Valid()
      modifies `mapCount
      ensures ok <==>
        (&& alignment % kPageSize == 0
         && (alignment != 0 ==> PowerOfTwo(alignment))
         && (old(mapCount) == 0 ==> mapping == Ok))
      ensures mapCount == old(mapCount) + (if ok then 1 else 0)
    {
      if alignment % kPageSize != 0 {
        return false;
      }
      if alignment != 0 && !PowerOfTwo(alignment) {
        return false;
      }
      if mapCount == 0 && mapping != Ok {
        return false;
      }
      mapCount := mapCount + 1;
      ok := true;
    }

    /** UnmapCpu: fails when nothing is mapped; otherwise one mapping fewer, even if the last unmap fails. */
    method UnmapCpu() returns (ok: bool)
      modifies `mapCount
      ensures ok <==> old(mapCount) > 0
      ensures mapCount == if ok then old(mapCount) - 1 else old(mapCount)
    {
      if mapCount > 0 {
        mapCount := mapCount - 1;
        return true;
      }
      return false;
    }

    /** ReleasePages: the whole buffer is unlocked when some page is still pinned. */
    method ReleasePages() returns (unlocks: bool)
      requires Valid()
      ensures unlocks <==> exists p :: 0 <= p < pins.Capacity() && Count(pins.sparse, p) > 0
    {
      TotalCountsPinnedPages(pins);
      unlocks := pins.totalPinCount != 0;
    }

    /** MapPageRangeBus: every page of the range must be pinned, and the lookup must succeed. */
    method MapPageRangeBus(start: nat, count: nat, lookup: Status) returns (ok: bool)
      requires Valid() && start + count <= pins.Capacity()
      ensures ok <==> AllPinned(start, count) && lookup == Ok
    {
      var i := start;
      while i < start + count
        invariant start <= i <= start + count
        invariant forall q :: start <= q < i ==> Count(pins.sparse, q) > 0
      {
        if pins.PinCount(i) == 0 {
          return false;
        }
        i := i + 1;
      }
      ok := lookup == Ok;
    }
  }
}
