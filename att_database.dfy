// The attribute database of the Bluetooth ATT server
// (drivers/bluetooth/lib/att/database.cc): a list of attribute groupings
// sorted by handle inside [rangeStart, rangeEnd], the allocation of handle
// ranges for new groupings, and the three handle-range searches of the
// Attribute Protocol (Bluetooth Core Specification v5.0, Vol 3, Part F,
// sections 3.4.3.1, 3.4.4.1 and 3.4.4.9), each bounded by a payload size.
//
// Each search is specified by a left fold of a step function over the
// attributes (or groupings) it visits; the lemmas below the folds state
// what the fold computes in closed form.

module AttDatabase {
  import opened Base
  import opened Att
  import opened AttAttribute

  // ---------------------------------------------------------------------
  // Layout of the grouping list

  /** Sorted by start handle, and no two groupings share a handle. */
  predicate Disjoint(gs: seq<AttributeGrouping>)
  {
    forall i, j :: 0 <= i < j < |gs| ==> gs[i].end < gs[j].start
  }

  predicate WithinRange(gs: seq<AttributeGrouping>, lo: int, hi: int)
  {
    forall i :: 0 <= i < |gs| ==> lo <= gs[i].start && gs[i].end <= hi
  }

  predicate AllValid(gs: seq<AttributeGrouping>)
  {
    forall i :: 0 <= i < |gs| ==> gs[i].Valid()
  }

  predicate Layout(gs: seq<AttributeGrouping>, lo: int, hi: int)
  {
    Disjoint(gs) && WithinRange(gs, lo, hi) && AllValid(gs) && Ranges(gs)
  }

  // ---------------------------------------------------------------------
  // Handle allocation

  /** The first free handle of gap k: gap 0 is before the first grouping, gap |gs| after the last. */
  function GapLow(gs: seq<AttributeGrouping>, lo: int, k: nat): int
    requires k <= |gs|
  {
    if k == 0 then lo else gs[k - 1].end + 1
  }

  /** The last free handle of gap k. */
  function GapHigh(gs: seq<AttributeGrouping>, hi: int, k: nat): int
    requires k <= |gs|
  {
    if k == |gs| then hi else gs[k].start - 1
  }

  /** Gap k has room for a grouping of attrCount + 1 handles. */
  predicate GapFits(gs: seq<AttributeGrouping>, lo: int, hi: int, attrCount: nat, k: nat)
    requires k <= |gs|
  {
    GapHigh(gs, hi, k) - GapLow(gs, lo, k) >= attrCount
  }

  /** The linear search of database.cc:58-66, from the gap before gs[k]. */
  function InnerPlacement(gs: seq<AttributeGrouping>, attrCount: nat, k: nat): (r: Option<(nat, int)>)
    requires 1 <= k <= |gs|
    decreases |gs| - k
  {
    if k == |gs| then None
    else if attrCount < gs[k].start - gs[k - 1].end - 1 then Some((k, gs[k - 1].end + 1))
    else InnerPlacement(gs, attrCount, k + 1)
  }

  /**
   * Where NewGrouping puts a grouping of attrCount + 1 handles: the index it
   * is inserted at and its start handle, or None when the database is full.
   */
  function Placement(gs: seq<AttributeGrouping>, lo: int, hi: int, attrCount: nat): (r: Option<(nat, int)>)
  {
    if |gs| == 0 then
      if hi - lo < attrCount then None else Some((0, lo))
    else if gs[0].start - lo > attrCount then Some((0, lo))
    else if hi - gs[|gs| - 1].end > attrCount then Some((|gs|, gs[|gs| - 1].end + 1))
    else InnerPlacement(gs, attrCount, 1)
  }

  lemma {:induction false} InnerPlacementFirstFit(gs: seq<AttributeGrouping>, lo: int, hi: int, attrCount: nat, k: nat)
    requires 1 <= k <= |gs|
    ensures var r := InnerPlacement(gs, attrCount, k);
      && (r.None? ==> forall j :: k <= j < |gs| ==> !GapFits(gs, lo, hi, attrCount, j))
      && (r.Some? ==> k <= r.value.0 < |gs| && r.value.1 == GapLow(gs, lo, r.value.0)
                      && GapFits(gs, lo, hi, attrCount, r.value.0)
                      && forall j :: k <= j < r.value.0 ==> !GapFits(gs, lo, hi, attrCount, j))
    decreases |gs| - k
  {
    if k < |gs| && !(attrCount < gs[k].start - gs[k - 1].end - 1) {
      InnerPlacementFirstFit(gs, lo, hi, attrCount, k + 1);
    }
  }

  /**
   * NewGrouping takes the first gap with room, trying the head, then the
   * tail, then the inner gaps from the lowest handle up; it fails only when
   * no gap has room.
   */
  lemma PlacementFirstFit(gs: seq<AttributeGrouping>, lo: int, hi: int, attrCount: nat)
    ensures var r := Placement(gs, lo, hi, attrCount);
      && (r.None? <==> forall k :: 0 <= k <= |gs| ==> !GapFits(gs, lo, hi, attrCount, k))
      && (r.Some? ==>
            && r.value.0 <= |gs| && r.value.1 == GapLow(gs, lo, r.value.0)
            && GapFits(gs, lo, hi, attrCount, r.value.0)
            && (r.value.0 != 0 ==> !GapFits(gs, lo, hi, attrCount, 0))
            && (0 < r.value.0 < |gs| ==>
                  !GapFits(gs, lo, hi, attrCount, |gs|)
                  && forall j :: 1 <= j < r.value.0 ==> !GapFits(gs, lo, hi, attrCount, j)))
  {
    var r := Placement(gs, lo, hi, attrCount);
    if |gs| > 0 {
      InnerPlacementFirstFit(gs, lo, hi, attrCount, 1);
    }
    if r.None? {
      forall k | 0 <= k <= |gs| ensures !GapFits(gs, lo, hi, attrCount, k) {
        if 0 < k < |gs| {
          assert !GapFits(gs, lo, hi, attrCount, k);
        }
      }
    } else {
      assert GapFits(gs, lo, hi, attrCount, r.value.0);
    }
  }

  /** The handles start..start+attrCount are free in a database laid out as gs. */
  predicate Free(gs: seq<AttributeGrouping>, start: int, attrCount: nat)
  {
    forall i :: 0 <= i < |gs| ==> gs[i].end < start || start + attrCount < gs[i].start
  }

  /** A free run of handles inside gap k of the layout. */
  lemma {:induction false} FreeRunInGap(gs: seq<AttributeGrouping>, lo: int, hi: int, s: int, attrCount: nat)
    requires Disjoint(gs) && AllValid(gs)
    requires lo <= s && s + attrCount <= hi && Free(gs, s, attrCount)
    ensures exists k :: 0 <= k <= |gs| && GapFits(gs, lo, hi, attrCount, k)
  {
    // The run lies before the first grouping whose start follows it.
    var k := 0;
    while k < |gs| && gs[k].end < s
      invariant 0 <= k <= |gs|
      invariant forall j :: 0 <= j < k ==> gs[j].end < s
    {
      k := k + 1;
    }
    assert k > 0 ==> GapLow(gs, lo, k) <= s;
    assert k < |gs| ==> s + attrCount < gs[k].start;
    assert GapFits(gs, lo, hi, attrCount, k);
  }

  /** When NewGrouping fails, no run of attrCount + 1 free handles exists anywhere in the range. */
  lemma PlacementFailsOnlyWhenFull(gs: seq<AttributeGrouping>, lo: int, hi: int, attrCount: nat)
    requires Layout(gs, lo, hi)
    requires Placement(gs, lo, hi, attrCount).None?
    ensures forall s :: lo <= s && s + attrCount <= hi ==> !Free(gs, s, attrCount)
  {
    PlacementFirstFit(gs, lo, hi, attrCount);
    forall s | lo <= s && s + attrCount <= hi
      ensures !Free(gs, s, attrCount)
    {
      if Free(gs, s, attrCount) {
        FreeRunInGap(gs, lo, hi, s, attrCount);
      }
    }
  }

  predicate Ranges(gs: seq<AttributeGrouping>)
  {
    forall i :: 0 <= i < |gs| ==> gs[i].start <= gs[i].end
  }

  lemma InsertSorted(gs: seq<AttributeGrouping>, k: nat, g: AttributeGrouping)
    requires Disjoint(gs) && Ranges(gs) && k <= |gs| && g.start <= g.end
    requires k > 0 ==> gs[k - 1].end < g.start
    requires k < |gs| ==> g.end < gs[k].start
    ensures Disjoint(gs[..k] + [g] + gs[k..])
  {
    var r := gs[..k] + [g] + gs[k..];
    assert forall i :: 0 <= i < |r| ==> r[i] == (if i < k then gs[i] else if i == k then g else gs[i - 1]);
    forall i, j | 0 <= i < j < |r| ensures r[i].end < r[j].start {
      if j < k {
        assert r[i] == gs[i] && r[j] == gs[j];
      } else if j == k {
        assert r[i] == gs[i];
        if i < k - 1 {
          assert gs[i].end < gs[k - 1].start;
        }
      } else if i == k {
        assert r[j] == gs[j - 1];
        if j - 1 > k {
          assert gs[k].end < gs[j - 1].start;
        }
      } else if i < k {
        assert r[i] == gs[i] && r[j] == gs[j - 1];
      } else {
        assert r[i] == gs[i - 1] && r[j] == gs[j - 1];
      }
    }
  }

  /** A grouping between its two neighbours at index k keeps the list sorted and disjoint. */
  lemma InsertKeepsDisjoint(gs: seq<AttributeGrouping>, k: nat, g: AttributeGrouping)
    requires Disjoint(gs) && Ranges(gs) && k <= |gs| && g.start <= g.end
    requires k > 0 ==> gs[k - 1].end < g.start
    requires k < |gs| ==> g.end < gs[k].start
    ensures Disjoint(gs[..k] + [g] + gs[k..])
    ensures Free(gs, g.start, g.end - g.start)
  {
    InsertSorted(gs, k, g);
    forall i | 0 <= i < |gs| ensures gs[i].end < g.start || g.end < gs[i].start {
      if i < k - 1 {
        assert gs[i].end < gs[k - 1].start;
      } else if i > k {
        assert gs[k].end < gs[i].start;
      }
    }
  }

  lemma InsertKeepsValidRange(gs: seq<AttributeGrouping>, lo: int, hi: int, k: nat, g: AttributeGrouping)
    requires WithinRange(gs, lo, hi) && AllValid(gs) && k <= |gs|
    requires g.Valid() && lo <= g.start && g.end <= hi
    ensures WithinRange(gs[..k] + [g] + gs[k..], lo, hi) && AllValid(gs[..k] + [g] + gs[k..])
  {
    var r := gs[..k] + [g] + gs[k..];
    assert forall i :: 0 <= i < |r| ==> r[i] == (if i < k then gs[i] else if i == k then g else gs[i - 1]);
  }

  /** The grouping NewGrouping places fits its gap, so inserting it keeps the layout. */
  lemma PlacementKeepsLayout(gs: seq<AttributeGrouping>, lo: int, hi: int, attrCount: nat, g: AttributeGrouping)
    requires Layout(gs, lo, hi)
    requires Placement(gs, lo, hi, attrCount).Some?
    requires g.Valid() && g.start == Placement(gs, lo, hi, attrCount).value.1 && g.end == g.start + attrCount
    ensures var k := Placement(gs, lo, hi, attrCount).value.0;
      k <= |gs| && Layout(gs[..k] + [g] + gs[k..], lo, hi) && Free(gs, g.start, attrCount)
  {
    PlacementFirstFit(gs, lo, hi, attrCount);
    var k := Placement(gs, lo, hi, attrCount).value.0;
    if k > 0 {
      assert lo <= gs[k - 1].start;
    }
    InsertKeepsDisjoint(gs, k, g);
    InsertKeepsValidRange(gs, lo, hi, k, g);
  }

  /**
   * The range check the grouping constructor asserts as written rejects
   * what this database hands out: a grouping that fills an empty database
   * reaching kHandleMax.
   */
  lemma LastHandleTripsGroupingCheck()
    ensures Placement([], 1, kHandleMax, 0xFFFE) == Some((0, 1))
    ensures !GroupingRangeCheckAsWritten(1, 0xFFFE) && GroupingRangeCheck(1, 0xFFFE)
  {
  }

  // ---------------------------------------------------------------------
  // The attributes a handle-range search visits

  /** The items of a list, each replaced by the run of items `f` maps it to. */
  function FlatMap<T, U>(f: T -> seq<U>, xs: seq<T>): seq<U>
  {
    if |xs| == 0 then [] else FlatMap(f, xs[..|xs| - 1]) + f(xs[|xs| - 1])
  }

  lemma {:induction false} FlatMapConcat<T, U>(f: T -> seq<U>, xs: seq<T>, ys: seq<T>)
    ensures FlatMap(f, xs + ys) == FlatMap(f, xs) + FlatMap(f, ys)
    decreases |ys|
  {
    if |ys| == 0 {
      assert xs + ys == xs;
    } else {
      var front := ys[..|ys| - 1];
      FlatMapConcat(f, xs, front);
      assert (xs + ys)[..|xs + ys| - 1] == xs + front;
      assert (xs + ys)[|xs + ys| - 1] == ys[|ys| - 1];
    }
  }

  lemma FlatMapStep<T, U>(f: T -> seq<U>, xs: seq<T>, i: nat)
    requires i < |xs|
    ensures FlatMap(f, xs[..i + 1]) == FlatMap(f, xs[..i]) + f(xs[i])
  {
    assert xs[..i + 1][..i] == xs[..i];
  }

  /** Items that map to nothing add nothing. */
  lemma {:induction false} FlatMapSkip<T, U>(f: T -> seq<U>, xs: seq<T>, i: nat, n: nat)
    requires i <= n <= |xs|
    requires forall j :: i <= j < n ==> f(xs[j]) == []
    ensures FlatMap(f, xs[..n]) == FlatMap(f, xs[..i])
    decreases n - i
  {
    if n > i {
      FlatMapStep(f, xs, n - 1);
      FlatMapSkip(f, xs, i, n - 1);
      assert FlatMap(f, xs[..n - 1]) + [] == FlatMap(f, xs[..n - 1]);
    }
  }

  /** Everything in the result comes from some item. */
  lemma {:induction false} FlatMapFrom<T, U>(f: T -> seq<U>, xs: seq<T>)
    ensures forall y :: y in FlatMap(f, xs) ==> exists x :: x in xs && y in f(x)
  {
    if |xs| > 0 {
      var front := xs[..|xs| - 1];
      FlatMapFrom(f, front);
      assert forall x :: x in front ==> x in xs;
      assert xs[|xs| - 1] in xs;
    }
  }

  /** The attributes of one grouping that a search of [startHandle, endHandle] visits. */
  function GroupSpan(g: AttributeGrouping, startHandle: int, endHandle: int): (r: seq<Attribute>)
  {
    if !g.active || !g.Complete() || startHandle > endHandle || g.start > endHandle || g.end < startHandle then []
    else g.attributes[Max(g.start, startHandle) - g.start .. Min(g.end, endHandle) - g.start + 1]
  }

  function GroupSpanOf(startHandle: int, endHandle: int): AttributeGrouping -> seq<Attribute>
  {
    (g: AttributeGrouping) => GroupSpan(g, startHandle, endHandle)
  }

  /** The attributes of active, complete groupings with handles in [startHandle, endHandle], in handle order. */
  function Span(gs: seq<AttributeGrouping>, startHandle: int, endHandle: int): (r: seq<Attribute>)
  {
    FlatMap(GroupSpanOf(startHandle, endHandle), gs)
  }

  lemma SpanStep(gs: seq<AttributeGrouping>, i: nat, startHandle: int, endHandle: int)
    requires i < |gs|
    ensures Span(gs[..i + 1], startHandle, endHandle) == Span(gs[..i], startHandle, endHandle) + GroupSpan(gs[i], startHandle, endHandle)
  {
    FlatMapStep(GroupSpanOf(startHandle, endHandle), gs, i);
  }

  /** Groupings that end before the range contribute nothing. */
  lemma SpanEmptyBefore(gs: seq<AttributeGrouping>, i: nat, startHandle: int, endHandle: int)
    requires i <= |gs|
    requires forall j :: 0 <= j < i ==> gs[j].end < startHandle
    ensures Span(gs[..i], startHandle, endHandle) == []
  {
    FlatMapSkip(GroupSpanOf(startHandle, endHandle), gs, 0, i);
    assert gs[..0] == [];
  }

  /** Groupings that start after the range contribute nothing. */
  lemma SpanStopsAfter(gs: seq<AttributeGrouping>, i: nat, n: nat, startHandle: int, endHandle: int)
    requires i <= n <= |gs|
    requires forall j :: i <= j < |gs| ==> gs[j].start > endHandle
    ensures Span(gs[..n], startHandle, endHandle) == Span(gs[..i], startHandle, endHandle)
  {
    FlatMapSkip(GroupSpanOf(startHandle, endHandle), gs, i, n);
  }

  lemma SpanConcat(xs: seq<AttributeGrouping>, ys: seq<AttributeGrouping>, startHandle: int, endHandle: int)
    ensures Span(xs + ys, startHandle, endHandle) == Span(xs, startHandle, endHandle) + Span(ys, startHandle, endHandle)
  {
    FlatMapConcat(GroupSpanOf(startHandle, endHandle), xs, ys);
  }

  /** The attributes one grouping contributes sit at consecutive handles from max(start, startHandle) up to min(end, endHandle). */
  lemma GroupSpanHandles(g: AttributeGrouping, startHandle: int, endHandle: int)
    requires g.Valid()
    ensures var b := GroupSpan(g, startHandle, endHandle);
      && (b != [] ==> g.active && g.Complete() && |b| == Min(g.end, endHandle) - Max(g.start, startHandle) + 1)
      && forall t :: 0 <= t < |b| ==> b[t].handle == Max(g.start, startHandle) + t && b[t].handle <= Min(g.end, endHandle)
  {
    var b := GroupSpan(g, startHandle, endHandle);
    if b != [] {
      var lo := Max(g.start, startHandle) - g.start;
      assert forall t :: 0 <= t < |b| ==> b[t] == g.attributes[lo + t];
    }
  }

  predicate HandlesWithin(r: seq<Attribute>, lo: int, hi: int)
  {
    forall i :: 0 <= i < |r| ==> lo <= r[i].handle <= hi
  }

  predicate HandlesIncrease(r: seq<Attribute>)
  {
    forall i, j :: 0 <= i < j < |r| ==> r[i].handle < r[j].handle
  }

  lemma HandlesConcat(a: seq<Attribute>, b: seq<Attribute>, lo: int, mid: int, hi: int)
    requires HandlesWithin(a, lo, hi) && HandlesWithin(a, lo, mid - 1) && HandlesIncrease(a)
    requires HandlesWithin(b, lo, hi) && HandlesWithin(b, mid, hi) && HandlesIncrease(b)
    ensures HandlesWithin(a + b, lo, hi) && HandlesIncrease(a + b)
  {
    var r := a + b;
    forall i | 0 <= i < |r| ensures lo <= r[i].handle <= hi {
      if i < |a| {
        assert r[i] == a[i];
      } else {
        assert r[i] == b[i - |a|];
      }
    }
    forall i, j | 0 <= i < j < |r| ensures r[i].handle < r[j].handle {
      if j < |a| {
        assert r[i] == a[i] && r[j] == a[j];
      } else if i < |a| {
        assert r[i] == a[i] && r[j] == b[j - |a|];
      } else {
        assert r[i] == b[i - |a|] && r[j] == b[j - |a|];
      }
    }
  }

  lemma HandlesPrefix(r: seq<Attribute>, n: nat, lo: int, hi: int)
    requires n <= |r| && HandlesWithin(r, lo, hi) && HandlesIncrease(r)
    ensures HandlesWithin(r[..n], lo, hi) && HandlesIncrease(r[..n])
  {
    assert forall i :: 0 <= i < n ==> r[..n][i] == r[i];
  }

  /**
   * The attributes a search visits have handles in [startHandle,
   * endHandle], in strictly increasing order, so no attribute is visited
   * twice.
   */
  lemma {:induction false} SpanInRange(gs: seq<AttributeGrouping>, startHandle: int, endHandle: int)
    requires AllValid(gs) && Disjoint(gs)
    ensures HandlesWithin(Span(gs, startHandle, endHandle), startHandle, endHandle)
    ensures HandlesIncrease(Span(gs, startHandle, endHandle))
    ensures |gs| > 0 ==> HandlesWithin(Span(gs, startHandle, endHandle), startHandle, gs[|gs| - 1].end)
  {
    if |gs| > 0 {
      var n := |gs| - 1;
      var front := gs[..n];
      var g := gs[n];
      var a := Span(front, startHandle, endHandle);
      var b := GroupSpan(g, startHandle, endHandle);
      var hi := Min(g.end, endHandle);
      assert HandlesWithin(a, startHandle, g.start - 1) && HandlesWithin(a, startHandle, hi) && HandlesIncrease(a) by {
        PrefixKeepsLayout(gs, n);
        SpanInRange(front, startHandle, endHandle);
        if n > 0 {
          assert front[n - 1].end < g.start;
          HandlesWeaken(a, startHandle, front[n - 1].end, g.start - 1);
          HandlesWeaken(a, startHandle, g.start - 1, g.end);
          HandlesMeet(a, startHandle, g.end, endHandle);
        }
      }
      assert HandlesWithin(b, g.start, hi) && HandlesWithin(b, startHandle, hi) && HandlesIncrease(b) by {
        assert g.Valid();
        GroupSpanHandles(g, startHandle, endHandle);
      }
      HandlesConcat(a, b, startHandle, g.start, hi);
      assert Span(gs, startHandle, endHandle) == a + b by {
        SpanStep(gs, n, startHandle, endHandle);
        assert gs[..n + 1] == gs;
      }
      HandlesWeaken(a + b, startHandle, hi, endHandle);
      HandlesWeaken(a + b, startHandle, hi, g.end);
    }
  }

  lemma PrefixKeepsLayout(gs: seq<AttributeGrouping>, n: nat)
    requires AllValid(gs) && Disjoint(gs) && n <= |gs|
    ensures AllValid(gs[..n]) && Disjoint(gs[..n])
  {
    assert forall i :: 0 <= i < n ==> gs[..n][i] == gs[i];
  }

  lemma HandlesWeaken(r: seq<Attribute>, lo: int, hi: int, hi': int)
    requires HandlesWithin(r, lo, hi) && hi <= hi'
    ensures HandlesWithin(r, lo, hi')
  {
  }

  lemma HandlesMeet(r: seq<Attribute>, lo: int, hi: int, hi': int)
    requires HandlesWithin(r, lo, hi) && HandlesWithin(r, lo, hi')
    ensures HandlesWithin(r, lo, Min(hi, hi'))
  {
  }

  // ---------------------------------------------------------------------
  // The payload-bounded scan shared by Find Information and Read By Group
  // Type: the first item fixes a size that every later item must share and
  // an entry size, min(cap, payload); items are taken while they share the
  // size and their entries fit in what is left of the payload.

  datatype Scan<T> = Scan(results: seq<T>, size: nat, entrySize: int, remaining: int, done: bool)

  function ScanStart<T>(maxPayload: int): Scan<T>
  {
    Scan([], 0, 0, maxPayload, false)
  }

  function ScanStep<T>(size: T -> nat, cap: T -> nat, s: Scan<T>, x: T): Scan<T>
  {
    if s.done then s
    else if |s.results| == 0 then
      var e := Min(cap(x), s.remaining);
      Scan([x], size(x), e, s.remaining - e, false)
    else if size(x) != s.size || s.entrySize > s.remaining then s.(done := true)
    else s.(results := s.results + [x], remaining := s.remaining - s.entrySize)
  }

  function ScanFrom<T>(size: T -> nat, cap: T -> nat, s: Scan<T>, xs: seq<T>): Scan<T>
  {
    if |xs| == 0 then s
    else ScanStep(size, cap, ScanFrom(size, cap, s, xs[..|xs| - 1]), xs[|xs| - 1])
  }

  lemma {:induction false} ScanFromAppend<T>(size: T -> nat, cap: T -> nat, s: Scan<T>, xs: seq<T>, ys: seq<T>)
    ensures ScanFrom(size, cap, s, xs + ys) == ScanFrom(size, cap, ScanFrom(size, cap, s, xs), ys)
    decreases |ys|
  {
    if |ys| == 0 {
      assert xs + ys == xs;
    } else {
      var front := ys[..|ys| - 1];
      ScanFromAppend(size, cap, s, xs, front);
      assert (xs + ys)[..|xs + ys| - 1] == xs + front;
      assert (xs + ys)[|xs + ys| - 1] == ys[|ys| - 1];
    }
  }

  lemma ScanFromSnoc<T>(size: T -> nat, cap: T -> nat, s: Scan<T>, xs: seq<T>, x: T)
    ensures ScanFrom(size, cap, s, xs + [x]) == ScanStep(size, cap, ScanFrom(size, cap, s, xs), x)
  {
    assert (xs + [x])[..|xs|] == xs;
  }

  lemma MulSucc(n: int, e: int)
    ensures (n + 1) * e == n * e + e
  {
  }

  /** A finished scan ignores whatever follows. */
  lemma {:induction false} ScanFromDone<T>(size: T -> nat, cap: T -> nat, s: Scan<T>, xs: seq<T>)
    requires s.done
    ensures ScanFrom(size, cap, s, xs) == s
    decreases |xs|
  {
    if |xs| > 0 {
      ScanFromDone(size, cap, s, xs[..|xs| - 1]);
    }
  }

  /** Item i (after the first) ends the scan: another size, or no room for its entry. */
  predicate ScanStops<T>(size: T -> nat, cap: T -> nat, xs: seq<T>, i: nat, maxPayload: int)
    requires 1 <= i < |xs|
  {
    size(xs[i]) != size(xs[0]) || (i + 1) * Min(cap(xs[0]), maxPayload) > maxPayload
  }

  /**
   * What a scan returns, in closed form: the longest prefix of the items
   * that share the first item's size and whose entries fit in the payload;
   * it is empty only when there are no items.
   */
  lemma {:induction false} ScanCharacterized<T>(size: T -> nat, cap: T -> nat, maxPayload: int, xs: seq<T>)
    ensures var s := ScanFrom(size, cap, ScanStart(maxPayload), xs); var n := |s.results|;
      && n <= |xs| && s.results == xs[..n]
      && (n == 0 <==> |xs| == 0)
      && (n > 0 ==> s.size == size(xs[0]) && s.entrySize == Min(cap(xs[0]), maxPayload)
                    && s.remaining == maxPayload - n * s.entrySize)
      && (forall i :: 1 <= i < n ==> !ScanStops(size, cap, xs, i, maxPayload))
      && (s.done <==> n < |xs|)
      && (n < |xs| ==> ScanStops(size, cap, xs, n, maxPayload))
  {
    if |xs| > 0 {
      var m := |xs| - 1;
      var front := xs[..m];
      var s := ScanFrom(size, cap, ScanStart(maxPayload), front);
      var n := |s.results|;
      ScanCharacterized(size, cap, maxPayload, front);
      assert ScanFrom(size, cap, ScanStart(maxPayload), xs) == ScanStep(size, cap, s, xs[m]);
      if n > 0 {
        assert front[0] == xs[0];
        forall i | 1 <= i < n ensures ScanStops(size, cap, front, i, maxPayload) == ScanStops(size, cap, xs, i, maxPayload) {
          assert front[i] == xs[i];
        }
        if n < m {
          assert front[n] == xs[n];
        } else {
          var e := s.entrySize;
          MulSucc(n, e);
          assert xs[..n + 1] == xs[..n] + [xs[n]];
        }
      } else {
        assert xs[..1] == [xs[0]];
      }
    }
  }

  /**
   * Consequences: the result starts with the first item, all its items
   * share one size, and its entries together fit in the payload.
   */
  lemma ScanResultFits<T>(size: T -> nat, cap: T -> nat, maxPayload: nat, xs: seq<T>)
    ensures var r := ScanFrom(size, cap, ScanStart(maxPayload), xs).results;
      && (|xs| > 0 <==> |r| > 0)
      && (|r| > 0 ==> r[0] == xs[0] && |r| * Min(cap(r[0]), maxPayload) <= maxPayload)
      && (forall i :: 0 <= i < |r| ==> size(r[i]) == size(r[0]))
  {
    ScanCharacterized(size, cap, maxPayload, xs);
    var r := ScanFrom(size, cap, ScanStart(maxPayload), xs).results;
    var n := |r|;
    if n > 1 {
      assert !ScanStops(size, cap, xs, n - 1, maxPayload);
    }
    forall i | 0 <= i < n ensures size(r[i]) == size(r[0]) {
      if i > 0 {
        assert !ScanStops(size, cap, xs, i, maxPayload);
      }
    }
  }

  // ---------------------------------------------------------------------
  // Find Information (database.cc:94-159)

  /** The compact size of an attribute's type. */
  function InfoSize(a: Attribute): nat { a.attrType.CompactSize(false) }

  /** An information entry: a handle and the type in its compact form. */
  function InfoCap(a: Attribute): nat { a.attrType.CompactSize(false) + 2 }

  /** What Find Information answers for [startHandle, endHandle] within maxPayload octets. */
  function FindInformationResult(gs: seq<AttributeGrouping>, startHandle: int, endHandle: int, maxPayload: int)
    : (ErrorCode, seq<Attribute>)
  {
    if startHandle == kInvalidHandle || startHandle > endHandle then (InvalidHandle, [])
    else
      var r := ScanFrom(InfoSize, InfoCap, ScanStart(maxPayload), Span(gs, startHandle, endHandle)).results;
      if r == [] then (AttributeNotFound, []) else (NoError, r)
  }

  /**
   * Find Information, in closed form: kInvalidHandle exactly for an invalid
   * range; kAttributeNotFound exactly when no attribute of an active,
   * complete grouping lies in the range; otherwise the attributes from the
   * first one in the range on, in handle order, all with UUIDs of one size,
   * as many as fit in the payload.
   */
  lemma FindInformationCharacterized(gs: seq<AttributeGrouping>, startHandle: int, endHandle: int, maxPayload: nat)
    requires AllValid(gs) && Disjoint(gs)
    ensures var (err, r) := FindInformationResult(gs, startHandle, endHandle, maxPayload);
      var xs := Span(gs, startHandle, endHandle);
      && (err == InvalidHandle <==> startHandle == kInvalidHandle || startHandle > endHandle)
      && (err == AttributeNotFound <==> err != InvalidHandle && xs == [])
      && (err == NoError <==> err != InvalidHandle && xs != [])
      && (err == NoError ==>
            && 0 < |r| <= |xs| && r == xs[..|r|] && r[0] == xs[0]
            && HandlesWithin(r, startHandle, endHandle) && HandlesIncrease(r)
            && (forall i :: 0 <= i < |r| ==> InfoSize(r[i]) == InfoSize(r[0]))
            && |r| * Min(InfoCap(r[0]), maxPayload) <= maxPayload)
      && (err != NoError ==> r == [])
  {
    var xs := Span(gs, startHandle, endHandle);
    var r := ScanFrom(InfoSize, InfoCap, ScanStart(maxPayload), xs).results;
    ScanCharacterized(InfoSize, InfoCap, maxPayload, xs);
    ScanResultFits(InfoSize, InfoCap, maxPayload, xs);
    assert HandlesWithin(r, startHandle, endHandle) && HandlesIncrease(r) by {
      SpanInRange(gs, startHandle, endHandle);
      HandlesPrefix(xs, |r|, startHandle, endHandle);
    }
  }

  // ---------------------------------------------------------------------
  // Read By Group Type (database.cc:161-239)

  /** Whether a Read By Group Type search of [startHandle, endHandle] for groupType takes grouping g. */
  predicate IsCandidate(g: AttributeGrouping, startHandle: int, endHandle: int, groupType: Uuid)
  {
    startHandle <= g.start <= endHandle && g.active && g.Complete() && g.groupType == groupType
  }

  function CandidateOf(startHandle: int, endHandle: int, groupType: Uuid): AttributeGrouping -> seq<AttributeGrouping>
  {
    (g: AttributeGrouping) => if IsCandidate(g, startHandle, endHandle, groupType) then [g] else []
  }

  /** The groupings a Read By Group Type search of [startHandle, endHandle] for groupType visits. */
  function GroupCandidates(gs: seq<AttributeGrouping>, startHandle: int, endHandle: int, groupType: Uuid): (r: seq<AttributeGrouping>)
  {
    FlatMap(CandidateOf(startHandle, endHandle, groupType), gs)
  }

  /** The size of a grouping's declaration value. */
  function DeclSize(g: AttributeGrouping): nat
  {
    if |g.attributes| > 0 && g.attributes[0].value.Some? then |g.attributes[0].value.value| else 0
  }

  /** A group data entry: two handles and the declaration value, cut to what the response can carry. */
  function GroupCap(g: AttributeGrouping): nat
  {
    Min(DeclSize(g), kMaxReadByGroupTypeValueLength) + 4
  }

  /** What Read By Group Type answers for [startHandle, endHandle] and groupType within maxPayload octets. */
  function ReadByGroupTypeResult(gs: seq<AttributeGrouping>, startHandle: int, endHandle: int, groupType: Uuid, maxPayload: int)
    : (ErrorCode, seq<AttributeGrouping>)
  {
    if startHandle == kInvalidHandle || startHandle > endHandle then (InvalidHandle, [])
    else
      var r := ScanFrom(DeclSize, GroupCap, ScanStart(maxPayload), GroupCandidates(gs, startHandle, endHandle, groupType)).results;
      if r == [] then (AttributeNotFound, []) else (NoError, r)
  }

  /** Every grouping a Read By Group Type search visits is active, complete, of the requested type, and starts in range. */
  lemma GroupCandidatesMatch(gs: seq<AttributeGrouping>, startHandle: int, endHandle: int, groupType: Uuid)
    ensures forall g :: g in GroupCandidates(gs, startHandle, endHandle, groupType) ==>
      g in gs && g.active && g.Complete() && g.groupType == groupType && startHandle <= g.start <= endHandle
  {
    FlatMapFrom(CandidateOf(startHandle, endHandle, groupType), gs);
  }

  /**
   * Read By Group Type, in closed form: kInvalidHandle exactly for an
   * invalid range; kAttributeNotFound exactly when no active, complete
   * grouping of the type starts in the range; otherwise such groupings from
   * the first one on, all with declaration values of one size, as many as
   * fit in the payload.
   */
  lemma ReadByGroupTypeCharacterized(gs: seq<AttributeGrouping>, startHandle: int, endHandle: int, groupType: Uuid, maxPayload: nat)
    ensures var (err, r) := ReadByGroupTypeResult(gs, startHandle, endHandle, groupType, maxPayload);
      var xs := GroupCandidates(gs, startHandle, endHandle, groupType);
      && (err == InvalidHandle <==> startHandle == kInvalidHandle || startHandle > endHandle)
      && (err == AttributeNotFound <==> err != InvalidHandle && xs == [])
      && (err == NoError <==> err != InvalidHandle && xs != [])
      && (err == NoError ==>
            && 0 < |r| <= |xs| && r == xs[..|r|] && r[0] == xs[0]
            && (forall g :: g in r ==> g in gs && g.active && g.Complete() && g.groupType == groupType
                                       && startHandle <= g.start <= endHandle)
            && (forall i :: 0 <= i < |r| ==> DeclSize(r[i]) == DeclSize(r[0]))
            && |r| * Min(GroupCap(r[0]), maxPayload) <= maxPayload)
      && (err != NoError ==> r == [])
  {
    var xs := GroupCandidates(gs, startHandle, endHandle, groupType);
    ScanCharacterized(DeclSize, GroupCap, maxPayload, xs);
    ScanResultFits(DeclSize, GroupCap, maxPayload, xs);
    GroupCandidatesMatch(gs, startHandle, endHandle, groupType);
    var r := ScanFrom(DeclSize, GroupCap, ScanStart(maxPayload), xs).results;
    assert forall g :: g in r ==> g in xs;
  }

  lemma GroupCandidatesConcat(xs: seq<AttributeGrouping>, ys: seq<AttributeGrouping>, startHandle: int, endHandle: int, groupType: Uuid)
    ensures GroupCandidates(xs + ys, startHandle, endHandle, groupType)
      == GroupCandidates(xs, startHandle, endHandle, groupType) + GroupCandidates(ys, startHandle, endHandle, groupType)
  {
    FlatMapConcat(CandidateOf(startHandle, endHandle, groupType), xs, ys);
  }

  lemma GroupCandidatesStep(gs: seq<AttributeGrouping>, i: nat, startHandle: int, endHandle: int, groupType: Uuid)
    requires i < |gs|
    ensures GroupCandidates(gs[..i + 1], startHandle, endHandle, groupType)
      == GroupCandidates(gs[..i], startHandle, endHandle, groupType)
         + (if IsCandidate(gs[i], startHandle, endHandle, groupType) then [gs[i]] else [])
  {
    FlatMapStep(CandidateOf(startHandle, endHandle, groupType), gs, i);
  }

  lemma GroupCandidatesEmptyBefore(gs: seq<AttributeGrouping>, i: nat, startHandle: int, endHandle: int, groupType: Uuid)
    requires i <= |gs|
    requires forall j :: 0 <= j < i ==> gs[j].start < startHandle
    ensures GroupCandidates(gs[..i], startHandle, endHandle, groupType) == []
  {
    FlatMapSkip(CandidateOf(startHandle, endHandle, groupType), gs, 0, i);
    assert gs[..0] == [];
  }

  lemma GroupCandidatesStopAfter(gs: seq<AttributeGrouping>, i: nat, n: nat, startHandle: int, endHandle: int, groupType: Uuid)
    requires i <= n <= |gs|
    requires forall j :: i <= j < |gs| ==> gs[j].start > endHandle
    ensures GroupCandidates(gs[..n], startHandle, endHandle, groupType) == GroupCandidates(gs[..i], startHandle, endHandle, groupType)
  {
    FlatMapSkip(CandidateOf(startHandle, endHandle, groupType), gs, i, n);
  }

  // ---------------------------------------------------------------------
  // Read By Type (database.cc:241-357)

  function TypeMatch(attrType: Uuid): Attribute -> seq<Attribute>
  {
    (a: Attribute) => if a.attrType == attrType then [a] else []
  }

  /** The attributes of the requested type, in order. */
  function OfType(xs: seq<Attribute>, attrType: Uuid): seq<Attribute>
  {
    FlatMap(TypeMatch(attrType), xs)
  }

  lemma OfTypeAppend(xs: seq<Attribute>, ys: seq<Attribute>, attrType: Uuid)
    ensures OfType(xs + ys, attrType) == OfType(xs, attrType) + OfType(ys, attrType)
  {
    FlatMapConcat(TypeMatch(attrType), xs, ys);
  }

  /** The scan state; `denied` is the early kReadNotPermitted return. */
  datatype TypeScan = TypeScan(results: seq<Attribute>, size: nat, entrySize: int, remaining: int, done: bool, denied: bool)

  function TypeStart(maxPayload: int): TypeScan
  {
    TypeScan([], 0, 0, maxPayload, false, false)
  }

  /** An attribute data entry: a handle and the value, cut to what the response can carry. */
  function TypeCap(v: seq<byte>): nat
  {
    Min(|v|, kMaxReadByTypeValueLength) + 2
  }

  /** One attribute of the requested type. */
  function TypeStep(s: TypeScan, a: Attribute): TypeScan
  {
    if s.done then s
    else if !a.readReqs.AllowedWithoutSecurity() then
      if |s.results| == 0 then s.(done := true, denied := true) else s.(done := true)
    else if |s.results| == 0 then
      if a.value.Some? then
        var e := Min(TypeCap(a.value.value), s.remaining);
        TypeScan([a], |a.value.value|, e, s.remaining - e, false, false)
      else
        s.(results := [a], done := true)
    else if a.value.None? || |a.value.value| != s.size || s.entrySize > s.remaining then s.(done := true)
    else s.(results := s.results + [a], remaining := s.remaining - s.entrySize)
  }

  function TypeFrom(s: TypeScan, xs: seq<Attribute>): TypeScan
  {
    if |xs| == 0 then s
    else TypeStep(TypeFrom(s, xs[..|xs| - 1]), xs[|xs| - 1])
  }

  lemma {:induction false} TypeFromAppend(s: TypeScan, xs: seq<Attribute>, ys: seq<Attribute>)
    ensures TypeFrom(s, xs + ys) == TypeFrom(TypeFrom(s, xs), ys)
    decreases |ys|
  {
    if |ys| == 0 {
      assert xs + ys == xs;
    } else {
      var front := ys[..|ys| - 1];
      TypeFromAppend(s, xs, front);
      assert (xs + ys)[..|xs + ys| - 1] == xs + front;
      assert (xs + ys)[|xs + ys| - 1] == ys[|ys| - 1];
    }
  }

  lemma TypeFromSnoc(s: TypeScan, xs: seq<Attribute>, x: Attribute)
    ensures TypeFrom(s, xs + [x]) == TypeStep(TypeFrom(s, xs), x)
  {
    assert (xs + [x])[..|xs|] == xs;
  }

  lemma OfTypeSnoc(xs: seq<Attribute>, x: Attribute, attrType: Uuid)
    ensures OfType(xs + [x], attrType) == OfType(xs, attrType) + (if x.attrType == attrType then [x] else [])
  {
    FlatMapStep(TypeMatch(attrType), xs + [x], |xs|);
    assert (xs + [x])[..|xs|] == xs && (xs + [x])[..|xs| + 1] == xs + [x];
  }

  lemma {:induction false} TypeFromDone(s: TypeScan, xs: seq<Attribute>)
    requires s.done
    ensures TypeFrom(s, xs) == s
    decreases |xs|
  {
    if |xs| > 0 {
      TypeFromDone(s, xs[..|xs| - 1]);
    }
  }

  /** Attribute i (after a static first one) ends a Read By Type response. */
  predicate TypeStops(xs: seq<Attribute>, i: nat, maxPayload: int)
    requires 1 <= i < |xs| && xs[0].value.Some?
  {
    || !xs[i].readReqs.AllowedWithoutSecurity()
    || xs[i].value.None?
    || |xs[i].value.value| != |xs[0].value.value|
    || (i + 1) * Min(TypeCap(xs[0].value.value), maxPayload) > maxPayload
  }

  /** The scan after a static, readable first attribute. */
  lemma {:induction false} TypeScanStatic(maxPayload: int, xs: seq<Attribute>)
    requires |xs| > 0 && xs[0].readReqs.AllowedWithoutSecurity() && xs[0].value.Some?
    ensures var s := TypeFrom(TypeStart(maxPayload), xs); var n := |s.results|;
      && !s.denied && 1 <= n <= |xs| && s.results == xs[..n]
      && s.size == |xs[0].value.value| && s.entrySize == Min(TypeCap(xs[0].value.value), maxPayload)
      && s.remaining == maxPayload - n * s.entrySize
      && (forall i :: 1 <= i < n ==> !TypeStops(xs, i, maxPayload))
      && (s.done <==> n < |xs|)
      && (n < |xs| ==> TypeStops(xs, n, maxPayload))
  {
    if |xs| > 1 {
      var m := |xs| - 1;
      var front := xs[..m];
      var s := TypeFrom(TypeStart(maxPayload), front);
      var n := |s.results|;
      assert front[0] == xs[0];
      TypeScanStatic(maxPayload, front);
      assert TypeFrom(TypeStart(maxPayload), xs) == TypeStep(s, xs[m]);
      forall i | 1 <= i < n ensures TypeStops(front, i, maxPayload) == TypeStops(xs, i, maxPayload) {
        assert front[i] == xs[i];
      }
      if n < m {
        assert front[n] == xs[n];
      } else {
        var e := s.entrySize;
        MulSucc(n, e);
        assert xs[..n + 1] == xs[..n] + [xs[n]];
      }
    } else {
      assert xs[..1] == xs;
    }
  }

  /**
   * What a Read By Type scan returns over the matching attributes xs:
   * denied exactly when the first one cannot be read without security;
   * a dynamic first attribute is the only result; otherwise the longest
   * prefix of readable static values of the first one's size that fits in
   * the payload.
   */
  lemma TypeScanCharacterized(maxPayload: int, xs: seq<Attribute>)
    ensures var s := TypeFrom(TypeStart(maxPayload), xs); var n := |s.results|;
      && (s.denied <==> |xs| > 0 && !xs[0].readReqs.AllowedWithoutSecurity())
      && (s.denied ==> n == 0)
      && (!s.denied ==> (n == 0 <==> |xs| == 0))
      && n <= |xs| && s.results == xs[..n]
      && (n > 0 && xs[0].value.None? ==> n == 1)
      && (n > 0 && xs[0].value.Some? ==>
            && (forall i :: 1 <= i < n ==> !TypeStops(xs, i, maxPayload))
            && (n < |xs| ==> TypeStops(xs, n, maxPayload)))
  {
    if |xs| > 0 {
      var first := TypeFrom(TypeStart(maxPayload), xs[..1]);
      assert xs[..1][..0] == [];
      assert TypeFrom(TypeStart(maxPayload), xs[..1][..0]) == TypeStart(maxPayload);
      assert first == TypeStep(TypeStart(maxPayload), xs[0]);
      assert xs == xs[..1] + xs[1..];
      TypeFromAppend(TypeStart(maxPayload), xs[..1], xs[1..]);
      if !xs[0].readReqs.AllowedWithoutSecurity() || xs[0].value.None? {
        TypeFromDone(first, xs[1..]);
      } else {
        TypeScanStatic(maxPayload, xs);
      }
    }
  }

  /** What Read By Type answers for [startHandle, endHandle] and attrType within maxPayload octets. */
  function ReadByTypeResult(gs: seq<AttributeGrouping>, startHandle: int, endHandle: int, attrType: Uuid, maxPayload: int)
    : (ErrorCode, seq<Attribute>)
  {
    if startHandle == kInvalidHandle || startHandle > endHandle then (InvalidHandle, [])
    else
      var s := TypeFrom(TypeStart(maxPayload), OfType(Span(gs, startHandle, endHandle), attrType));
      if s.denied then (ReadNotPermitted, [])
      else if s.results == [] then (AttributeNotFound, [])
      else (NoError, s.results)
  }

  // ---------------------------------------------------------------------
  // How the searches walk the grouping list

  /** Once a grouping starts past the range, the groupings from it on contribute nothing. */
  lemma SpanPast(gs: seq<AttributeGrouping>, i: nat, startHandle: int, endHandle: int)
    requires Disjoint(gs) && Ranges(gs) && i < |gs| && gs[i].start > endHandle
    ensures Span(gs, startHandle, endHandle) == Span(gs[..i], startHandle, endHandle)
  {
    forall j | i <= j < |gs| ensures gs[j].start > endHandle {
      if j > i { assert gs[i].end < gs[j].start; }
    }
    SpanStopsAfter(gs, i, |gs|, startHandle, endHandle);
    assert gs[..|gs|] == gs;
  }

  lemma GroupCandidatesPast(gs: seq<AttributeGrouping>, i: nat, startHandle: int, endHandle: int, groupType: Uuid)
    requires Disjoint(gs) && Ranges(gs) && i < |gs| && gs[i].start > endHandle
    ensures GroupCandidates(gs, startHandle, endHandle, groupType) == GroupCandidates(gs[..i], startHandle, endHandle, groupType)
  {
    forall j | i <= j < |gs| ensures gs[j].start > endHandle {
      if j > i { assert gs[i].end < gs[j].start; }
    }
    GroupCandidatesStopAfter(gs, i, |gs|, startHandle, endHandle, groupType);
    assert gs[..|gs|] == gs;
  }

  lemma ScanSpanStep(size: Attribute -> nat, cap: Attribute -> nat, s0: Scan<Attribute>, gs: seq<AttributeGrouping>, i: nat, startHandle: int, endHandle: int)
    requires i < |gs|
    ensures ScanFrom(size, cap, s0, Span(gs[..i + 1], startHandle, endHandle))
         == ScanFrom(size, cap, ScanFrom(size, cap, s0, Span(gs[..i], startHandle, endHandle)), GroupSpan(gs[i], startHandle, endHandle))
  {
    SpanStep(gs, i, startHandle, endHandle);
    ScanFromAppend(size, cap, s0, Span(gs[..i], startHandle, endHandle), GroupSpan(gs[i], startHandle, endHandle));
  }

  /** A scan that has finished, or has seen every grouping, has its final value. */
  lemma ScanSpanFinish(size: Attribute -> nat, cap: Attribute -> nat, s0: Scan<Attribute>, gs: seq<AttributeGrouping>, i: nat, startHandle: int, endHandle: int)
    requires i <= |gs|
    requires i == |gs| || ScanFrom(size, cap, s0, Span(gs[..i], startHandle, endHandle)).done
    ensures ScanFrom(size, cap, s0, Span(gs, startHandle, endHandle)) == ScanFrom(size, cap, s0, Span(gs[..i], startHandle, endHandle))
  {
    if i < |gs| {
      var s := ScanFrom(size, cap, s0, Span(gs[..i], startHandle, endHandle));
      SpanConcat(gs[..i], gs[i..], startHandle, endHandle);
      assert gs[..i] + gs[i..] == gs;
      ScanFromAppend(size, cap, s0, Span(gs[..i], startHandle, endHandle), Span(gs[i..], startHandle, endHandle));
      ScanFromDone(size, cap, s, Span(gs[i..], startHandle, endHandle));
    } else {
      assert gs[..i] == gs;
    }
  }

  lemma GroupScanFinish(s0: Scan<AttributeGrouping>, gs: seq<AttributeGrouping>, i: nat, startHandle: int, endHandle: int, groupType: Uuid)
    requires i <= |gs|
    requires i == |gs| || ScanFrom(DeclSize, GroupCap, s0, GroupCandidates(gs[..i], startHandle, endHandle, groupType)).done
    ensures ScanFrom(DeclSize, GroupCap, s0, GroupCandidates(gs, startHandle, endHandle, groupType))
         == ScanFrom(DeclSize, GroupCap, s0, GroupCandidates(gs[..i], startHandle, endHandle, groupType))
  {
    if i < |gs| {
      var front := GroupCandidates(gs[..i], startHandle, endHandle, groupType);
      var rest := GroupCandidates(gs[i..], startHandle, endHandle, groupType);
      GroupCandidatesConcat(gs[..i], gs[i..], startHandle, endHandle, groupType);
      assert gs[..i] + gs[i..] == gs;
      ScanFromAppend(DeclSize, GroupCap, s0, front, rest);
      ScanFromDone(DeclSize, GroupCap, ScanFrom(DeclSize, GroupCap, s0, front), rest);
    } else {
      assert gs[..i] == gs;
    }
  }

  /** One more attribute of a grouping: it steps the scan only when it has the requested type. */
  lemma TypeOfTypeStep(s0: TypeScan, xs: seq<Attribute>, k: nat, attrType: Uuid)
    requires k < |xs|
    ensures TypeFrom(s0, OfType(xs[..k + 1], attrType))
         == (var s := TypeFrom(s0, OfType(xs[..k], attrType)); if xs[k].attrType == attrType then TypeStep(s, xs[k]) else s)
  {
    assert xs[..k + 1] == xs[..k] + [xs[k]];
    OfTypeSnoc(xs[..k], xs[k], attrType);
    if xs[k].attrType == attrType {
      TypeFromSnoc(s0, OfType(xs[..k], attrType), xs[k]);
    } else {
      assert OfType(xs[..k], attrType) + [] == OfType(xs[..k], attrType);
    }
  }

  lemma TypeOfTypeFinish(s0: TypeScan, xs: seq<Attribute>, k: nat, attrType: Uuid)
    requires k <= |xs| && TypeFrom(s0, OfType(xs[..k], attrType)).done
    ensures TypeFrom(s0, OfType(xs, attrType)) == TypeFrom(s0, OfType(xs[..k], attrType))
  {
    var front, rest := xs[..k], xs[k..];
    assert front + rest == xs;
    OfTypeAppend(front, rest, attrType);
    TypeFromAppend(s0, OfType(front, attrType), OfType(rest, attrType));
    TypeFromDone(TypeFrom(s0, OfType(front, attrType)), OfType(rest, attrType));
  }

  lemma TypeSpanStep(s0: TypeScan, gs: seq<AttributeGrouping>, i: nat, startHandle: int, endHandle: int, attrType: Uuid)
    requires i < |gs|
    ensures TypeFrom(s0, OfType(Span(gs[..i + 1], startHandle, endHandle), attrType))
         == TypeFrom(TypeFrom(s0, OfType(Span(gs[..i], startHandle, endHandle), attrType)), OfType(GroupSpan(gs[i], startHandle, endHandle), attrType))
  {
    SpanStep(gs, i, startHandle, endHandle);
    OfTypeAppend(Span(gs[..i], startHandle, endHandle), GroupSpan(gs[i], startHandle, endHandle), attrType);
    TypeFromAppend(s0, OfType(Span(gs[..i], startHandle, endHandle), attrType), OfType(GroupSpan(gs[i], startHandle, endHandle), attrType));
  }

  lemma TypeSpanFinish(s0: TypeScan, gs: seq<AttributeGrouping>, i: nat, startHandle: int, endHandle: int, attrType: Uuid)
    requires i <= |gs|
    requires i == |gs| || TypeFrom(s0, OfType(Span(gs[..i], startHandle, endHandle), attrType)).done
    ensures TypeFrom(s0, OfType(Span(gs, startHandle, endHandle), attrType))
         == TypeFrom(s0, OfType(Span(gs[..i], startHandle, endHandle), attrType))
  {
    if i < |gs| {
      var front := OfType(Span(gs[..i], startHandle, endHandle), attrType);
      var rest := OfType(Span(gs[i..], startHandle, endHandle), attrType);
      SpanConcat(gs[..i], gs[i..], startHandle, endHandle);
      assert gs[..i] + gs[i..] == gs;
      OfTypeAppend(Span(gs[..i], startHandle, endHandle), Span(gs[i..], startHandle, endHandle), attrType);
      TypeFromAppend(s0, front, rest);
      TypeFromDone(TypeFrom(s0, front), rest);
    } else {
      assert gs[..i] == gs;
    }
  }

  // ---------------------------------------------------------------------
  // Layout after a removal

  lemma RemoveKeepsLayout(gs: seq<AttributeGrouping>, lo: int, hi: int, i: nat)
    requires Layout(gs, lo, hi) && i < |gs|
    ensures Layout(gs[..i] + gs[i + 1..], lo, hi)
  {
    var r := gs[..i] + gs[i + 1..];
    assert forall j :: 0 <= j < |r| ==> r[j] == (if j < i then gs[j] else gs[j + 1]);
    forall j, k | 0 <= j < k < |r| ensures r[j].end < r[k].start {
      if k < i {
        assert r[j] == gs[j] && r[k] == gs[k];
      } else if j < i {
        assert r[j] == gs[j] && r[k] == gs[k + 1];
      } else {
        assert r[j] == gs[j + 1] && r[k] == gs[k + 1];
      }
    }
  }

  lemma ReplaceKeepsLayout(gs: seq<AttributeGrouping>, lo: int, hi: int, i: nat, g: AttributeGrouping)
    requires Layout(gs, lo, hi) && i < |gs| && g.Valid() && g.start == gs[i].start && g.end == gs[i].end
    ensures Layout(gs[i := g], lo, hi)
  {
    var r := gs[i := g];
    forall j, k | 0 <= j < k < |r| ensures r[j].end < r[k].start {
      assert gs[j].end < gs[k].start;
    }
  }

  // ---------------------------------------------------------------------
  // The database

  class Database {
    var rangeStart: int
    var rangeEnd: int
    var groupings: seq<AttributeGrouping>

    predicate Valid()
      reads this
    {
      && kHandleMin <= rangeStart < rangeEnd <= kHandleMax
      && Layout(groupings, rangeStart, rangeEnd)
    }

    /** Database::Database: an empty database over [rangeStart, rangeEnd]. */
    constructor (rangeStart: int, rangeEnd: int)
      requires kHandleMin <= rangeStart < rangeEnd <= kHandleMax
      ensures Valid() && this.rangeStart == rangeStart && this.rangeEnd == rangeEnd && groupings == []
    {
      this.rangeStart := rangeStart;
      this.rangeEnd := rangeEnd;
      groupings := [];
    }

    /** The search of NewGrouping for a gap: before the first grouping, after the last, then between neighbours. */
    static method FindPlacement(gs: seq<AttributeGrouping>, lo: int, hi: int, attrCount: nat) returns (r: Option<(nat, int)>)
      ensures r == Placement(gs, lo, hi, attrCount)
    {
      if |gs| == 0 {
        if hi - lo < attrCount {
          return None;
        }
        return Some((0, lo));
      } else if gs[0].start - lo > attrCount {
        return Some((0, lo));
      } else if hi - gs[|gs| - 1].end > attrCount {
        return Some((|gs|, gs[|gs| - 1].end + 1));
      }
      var k := 1;
      while k < |gs| && !(attrCount < gs[k].start - gs[k - 1].end - 1)
        invariant 1 <= k <= |gs|
        invariant InnerPlacement(gs, attrCount, k) == InnerPlacement(gs, attrCount, 1)
      {
        k := k + 1;
      }
      if k == |gs| {
        return None;
      }
      return Some((k, gs[k - 1].end + 1));
    }

    /**
     * NewGrouping: places a grouping of attrCount attributes after its
     * declaration in the first gap with room (see Placement and
     * PlacementFirstFit), and returns its start handle, or None when the
     * database is full.
     */
    method NewGrouping(groupType: Uuid, attrCount: nat, declValue: seq<byte>) returns (start: Option<int>)
      requires Valid()
      requires 0 < |declValue| <= kMaxAttributeValueLength
      modifies this
      ensures Valid() && rangeStart == old(rangeStart) && rangeEnd == old(rangeEnd)
      ensures start.None? <==> Placement(old(groupings), rangeStart, rangeEnd, attrCount).None?
      ensures start.None? ==> groupings == old(groupings)
      ensures start.Some? ==>
        var k := Placement(old(groupings), rangeStart, rangeEnd, attrCount).value.0;
        && start.value == Placement(old(groupings), rangeStart, rangeEnd, attrCount).value.1
        && rangeStart <= start.value && start.value + attrCount <= rangeEnd
        && Free(old(groupings), start.value, attrCount)
        && k <= |old(groupings)|
        && groupings == old(groupings)[..k] + [AttAttribute.NewGrouping(groupType, start.value, attrCount, declValue)] + old(groupings)[k..]
    {
      var gs := groupings;
      var placement := FindPlacement(gs, rangeStart, rangeEnd, attrCount);
      if placement.None? {
        return None;
      }
      var pos, s := placement.value.0, placement.value.1;
      PlacementFirstFit(gs, rangeStart, rangeEnd, attrCount);
      if pos > 0 {
        assert rangeStart <= gs[pos - 1].start;
      }
      var g := AttAttribute.NewGrouping(groupType, s, attrCount, declValue);
      PlacementKeepsLayout(gs, rangeStart, rangeEnd, attrCount, g);
      groupings := gs[..pos] + [g] + gs[pos..];
      start := Some(s);
    }

    /** The first grouping that does not start before handle h (std::lower_bound by start handle). */
    method LowerBoundByStart(h: int) returns (i: nat)
      requires Valid()
      ensures i <= |groupings|
      ensures forall j :: 0 <= j < i ==> groupings[j].start < h
      ensures forall j :: i <= j < |groupings| ==> groupings[j].start >= h
    {
      var gs := groupings;
      i := 0;
      while i < |gs| && gs[i].start < h
        invariant 0 <= i <= |gs|
        invariant forall j :: 0 <= j < i ==> gs[j].start < h
      {
        i := i + 1;
      }
      forall j | i < j < |gs| ensures gs[j].start >= h {
        assert gs[i].end < gs[j].start;
      }
    }

    /** The first grouping that does not end before handle h (std::lower_bound by end handle). */
    method LowerBoundByEnd(h: int) returns (i: nat)
      requires Valid()
      ensures i <= |groupings|
      ensures forall j :: 0 <= j < i ==> groupings[j].end < h
      ensures forall j :: i <= j < |groupings| ==> groupings[j].end >= h
    {
      var gs := groupings;
      i := 0;
      while i < |gs| && gs[i].end < h
        invariant 0 <= i <= |gs|
        invariant forall j :: 0 <= j < i ==> gs[j].end < h
      {
        i := i + 1;
      }
      forall j | i < j < |gs| ensures gs[j].end >= h {
        assert gs[i].end < gs[j].start;
      }
    }

    /** RemoveGrouping: removes the grouping that starts exactly at startHandle, if there is one. */
    method RemoveGrouping(startHandle: int) returns (removed: bool)
      requires Valid()
      modifies this
      ensures Valid() && rangeStart == old(rangeStart) && rangeEnd == old(rangeEnd)
      ensures removed <==> exists i :: 0 <= i < |old(groupings)| && old(groupings)[i].start == startHandle
      ensures !removed ==> groupings == old(groupings)
      ensures removed ==> exists i :: 0 <= i < |old(groupings)| && old(groupings)[i].start == startHandle
                                      && groupings == old(groupings)[..i] + old(groupings)[i + 1..]
    {
      var gs := groupings;
      var i := LowerBoundByStart(startHandle);
      forall j | i < j < |gs| ensures gs[j].start > startHandle {
        assert gs[i].end < gs[j].start;
      }
      if i == |gs| || gs[i].start != startHandle {
        return false;
      }
      RemoveKeepsLayout(gs, rangeStart, rangeEnd, i);
      groupings := gs[..i] + gs[i + 1..];
      removed := true;
    }

    /**
     * The writes a service registration makes through the grouping reference that
     * NewGrouping returns: the grouping that starts at g.start is replaced
     * by g, which occupies the same handles.
     */
    method UpdateGrouping(g: AttributeGrouping) returns (found: bool)
      requires Valid() && g.Valid()
      modifies this
      ensures Valid() && rangeStart == old(rangeStart) && rangeEnd == old(rangeEnd)
      ensures found <==> exists i :: 0 <= i < |old(groupings)| && old(groupings)[i].start == g.start && old(groupings)[i].end == g.end
      ensures !found ==> groupings == old(groupings)
      ensures found ==> exists i :: 0 <= i < |old(groupings)| && old(groupings)[i].start == g.start
                                    && groupings == old(groupings)[i := g]
    {
      var gs := groupings;
      var i := LowerBoundByStart(g.start);
      forall j | i < j < |gs| ensures gs[j].start > g.start {
        assert gs[i].end < gs[j].start;
      }
      if i == |gs| || gs[i].start != g.start || gs[i].end != g.end {
        return false;
      }
      ReplaceKeepsLayout(gs, rangeStart, rangeEnd, i, g);
      groupings := gs[i := g];
      found := true;
    }

    /** The inner loop of Find Information, over the attributes of one grouping that lie in the range. */
    static method FindInformationRun(attrs: seq<Attribute>, s0: Scan<Attribute>) returns (s: Scan<Attribute>)
      ensures s == ScanFrom(InfoSize, InfoCap, s0, attrs)
    {
      var index := 0;
      s := s0;
      while index < |attrs| && !s.done
        invariant 0 <= index <= |attrs|
        invariant s == ScanFrom(InfoSize, InfoCap, s0, attrs[..index])
      {
        ghost var before := s;
        var attr := attrs[index];
        var compactSize := attr.attrType.CompactSize(false);
        if |s.results| == 0 {
          var entrySize := Min(compactSize + 2, s.remaining);
          s := Scan([attr], compactSize, entrySize, s.remaining - entrySize, false);
        } else if compactSize != s.size || s.entrySize > s.remaining {
          s := s.(done := true);
        } else {
          s := s.(results := s.results + [attr], remaining := s.remaining - s.entrySize);
        }
        assert s == ScanStep(InfoSize, InfoCap, before, attr);
        ScanFromSnoc(InfoSize, InfoCap, s0, attrs[..index], attr);
        assert attrs[..index + 1] == attrs[..index] + [attr];
        index := index + 1;
      }
      if index < |attrs| {
        ScanFromDone(InfoSize, InfoCap, s, attrs[index..]);
        ScanFromAppend(InfoSize, InfoCap, s0, attrs[..index], attrs[index..]);
        assert attrs[..index] + attrs[index..] == attrs;
      } else {
        assert attrs[..index] == attrs;
      }
    }

    /** One grouping of Find Information: inactive and incomplete groupings are skipped. */
    static method FindInformationIn(g: AttributeGrouping, startHandle: int, endHandle: int, s0: Scan<Attribute>)
      returns (s: Scan<Attribute>)
      requires g.Valid() && startHandle <= endHandle && g.start <= endHandle && startHandle <= g.end
      ensures s == ScanFrom(InfoSize, InfoCap, s0, GroupSpan(g, startHandle, endHandle))
    {
      if g.active && g.Complete() {
        var searchStart := Max(g.start, startHandle);
        var searchEnd := Min(g.end, endHandle);
        var attrs := g.attributes[searchStart - g.start .. searchEnd - g.start + 1];
        assert attrs == GroupSpan(g, startHandle, endHandle);
        s := FindInformationRun(attrs, s0);
      } else {
        assert GroupSpan(g, startHandle, endHandle) == [];
        s := s0;
      }
    }

    /** Database::FindInformation (see FindInformationCharacterized). */
    method FindInformation(startHandle: int, endHandle: int, maxPayload: int) returns (err: ErrorCode, results: seq<Attribute>)
      requires Valid()
      requires IsU16(startHandle) && IsU16(endHandle) && IsU16(maxPayload) && maxPayload > 18
      ensures (err, results) == FindInformationResult(groupings, startHandle, endHandle, maxPayload)
    {
      if startHandle == kInvalidHandle || startHandle > endHandle {
        return InvalidHandle, [];
      }
      var gs := groupings;
      var i := LowerBoundByEnd(startHandle);
      SpanEmptyBefore(gs, i, startHandle, endHandle);
      if i == |gs| || gs[i].start > endHandle {
        if i < |gs| { SpanPast(gs, i, startHandle, endHandle); } else { assert gs[..i] == gs; }
        return AttributeNotFound, [];
      }
      ghost var s0 := ScanStart(maxPayload);
      var s: Scan<Attribute> := ScanStart(maxPayload);
      while i < |gs| && !s.done
        invariant 0 <= i <= |gs|
        invariant s == ScanFrom(InfoSize, InfoCap, s0, Span(gs[..i], startHandle, endHandle))
      {
        var g := gs[i];
        if g.start > endHandle {
          SpanPast(gs, i, startHandle, endHandle);
          break;
        }
        ScanSpanStep(InfoSize, InfoCap, s0, gs, i, startHandle, endHandle);
        s := FindInformationIn(g, startHandle, endHandle, s);
        i := i + 1;
      }
      if i == |gs| || s.done {
        ScanSpanFinish(InfoSize, InfoCap, s0, gs, i, startHandle, endHandle);
      }
      if |s.results| == 0 {
        return AttributeNotFound, [];
      }
      return NoError, s.results;
    }

    /** One matching grouping of Read By Group Type: the first fixes the value and entry sizes; a later one must share the value size and fit. */
    static method GroupEntry(s0: Scan<AttributeGrouping>, g: AttributeGrouping) returns (s: Scan<AttributeGrouping>)
      requires g.Valid() && !s0.done
      ensures s == ScanStep(DeclSize, GroupCap, s0, g)
    {
      var valueSize := |g.DeclValue()|;
      if |s0.results| == 0 {
        var entrySize := Min(valueSize, kMaxReadByGroupTypeValueLength);
        entrySize := Min(entrySize + 4, s0.remaining);
        s := Scan([g], valueSize, entrySize, s0.remaining - entrySize, false);
      } else if valueSize != s0.size || s0.entrySize > s0.remaining {
        s := s0.(done := true);
      } else {
        s := s0.(results := s0.results + [g], remaining := s0.remaining - s0.entrySize);
      }
    }

    /** The loop of Read By Group Type, from grouping i0 on, the groupings before it starting before the range. */
    static method ReadByGroupTypeScan(gs: seq<AttributeGrouping>, i0: nat, startHandle: int, endHandle: int, groupType: Uuid, maxPayload: int)
      returns (s: Scan<AttributeGrouping>)
      requires Disjoint(gs) && Ranges(gs) && AllValid(gs) && i0 <= |gs|
      requires forall j :: 0 <= j < i0 ==> gs[j].start < startHandle
      requires forall j :: i0 <= j < |gs| ==> gs[j].start >= startHandle
      ensures s == ScanFrom(DeclSize, GroupCap, ScanStart(maxPayload), GroupCandidates(gs, startHandle, endHandle, groupType))
    {
      ghost var s0 := ScanStart(maxPayload);
      var i := i0;
      GroupCandidatesEmptyBefore(gs, i, startHandle, endHandle, groupType);
      s := ScanStart(maxPayload);
      while i < |gs| && !s.done
        invariant i0 <= i <= |gs|
        invariant s == ScanFrom(DeclSize, GroupCap, s0, GroupCandidates(gs[..i], startHandle, endHandle, groupType))
      {
        var g := gs[i];
        if g.start > endHandle {
          GroupCandidatesPast(gs, i, startHandle, endHandle, groupType);
          return;
        }
        GroupCandidatesStep(gs, i, startHandle, endHandle, groupType);
        assert startHandle <= g.start <= endHandle;
        if g.active && g.Complete() && g.groupType == groupType {
          s := GroupEntry(s, g);
          ScanFromSnoc(DeclSize, GroupCap, s0, GroupCandidates(gs[..i], startHandle, endHandle, groupType), g);
        } else {
          assert GroupCandidates(gs[..i], startHandle, endHandle, groupType) + [] == GroupCandidates(gs[..i], startHandle, endHandle, groupType);
        }
        i := i + 1;
      }
      GroupScanFinish(s0, gs, i, startHandle, endHandle, groupType);
    }

    /** Database::ReadByGroupType (see ReadByGroupTypeCharacterized). */
    method ReadByGroupType(startHandle: int, endHandle: int, groupType: Uuid, maxPayload: int)
      returns (err: ErrorCode, results: seq<AttributeGrouping>)
      requires Valid()
      requires IsU16(startHandle) && IsU16(endHandle) && IsU16(maxPayload) && maxPayload > 4
      ensures (err, results) == ReadByGroupTypeResult(groupings, startHandle, endHandle, groupType, maxPayload)
    {
      if startHandle == kInvalidHandle || startHandle > endHandle {
        return InvalidHandle, [];
      }
      var gs := groupings;
      var i := LowerBoundByStart(startHandle);
      if i == |gs| || gs[i].start > endHandle {
        GroupCandidatesEmptyBefore(gs, i, startHandle, endHandle, groupType);
        if i < |gs| { GroupCandidatesPast(gs, i, startHandle, endHandle, groupType); } else { assert gs[..i] == gs; }
        return AttributeNotFound, [];
      }
      var s := ReadByGroupTypeScan(gs, i, startHandle, endHandle, groupType, maxPayload);
      if |s.results| == 0 {
        return AttributeNotFound, [];
      }
      return NoError, s.results;
    }

    /**
     * One attribute of the requested type in Read By Type: one that needs
     * security ends the search (denied when nothing was found yet); the
     * first fixes the value and entry sizes, or ends the search when its
     * value is dynamic; a later one must be static, share the value size
     * and fit.
     */
    static method TypeEntry(s0: TypeScan, attr: Attribute) returns (s: TypeScan)
      requires !s0.done
      ensures s == TypeStep(s0, attr)
    {
      if !attr.readReqs.AllowedWithoutSecurity() {
        if |s0.results| == 0 {
          s := s0.(done := true, denied := true);
        } else {
          s := s0.(done := true);
        }
      } else if |s0.results| == 0 {
        if attr.value.Some? {
          var valueSize := |attr.value.value|;
          var entrySize := Min(valueSize, kMaxReadByTypeValueLength);
          entrySize := Min(entrySize + 2, s0.remaining);
          s := TypeScan([attr], valueSize, entrySize, s0.remaining - entrySize, false, false);
        } else {
          s := s0.(results := [attr], done := true);
        }
      } else if attr.value.None? || |attr.value.value| != s0.size || s0.entrySize > s0.remaining {
        s := s0.(done := true);
      } else {
        s := s0.(results := s0.results + [attr], remaining := s0.remaining - s0.entrySize);
      }
    }

    /** The inner loop of Read By Type, over the attributes of one grouping that lie in the range. */
    static method ReadByTypeRun(attrs: seq<Attribute>, attrType: Uuid, s0: TypeScan) returns (s: TypeScan)
      ensures s == TypeFrom(s0, OfType(attrs, attrType))
    {
      var index := 0;
      s := s0;
      while index < |attrs| && !s.done
        invariant 0 <= index <= |attrs|
        invariant s == TypeFrom(s0, OfType(attrs[..index], attrType))
      {
        var attr := attrs[index];
        if attr.attrType == attrType {
          s := TypeEntry(s, attr);
        }
        TypeOfTypeStep(s0, attrs, index, attrType);
        index := index + 1;
      }
      if index < |attrs| {
        TypeOfTypeFinish(s0, attrs, index, attrType);
      } else {
        assert attrs[..index] == attrs;
      }
    }

    /** One grouping of Read By Type: inactive and incomplete groupings are skipped. */
    static method ReadByTypeIn(g: AttributeGrouping, startHandle: int, endHandle: int, attrType: Uuid, s0: TypeScan)
      returns (s: TypeScan)
      requires g.Valid() && startHandle <= endHandle && g.start <= endHandle && startHandle <= g.end
      ensures s == TypeFrom(s0, OfType(GroupSpan(g, startHandle, endHandle), attrType))
    {
      if g.active && g.Complete() {
        var searchStart := Max(g.start, startHandle);
        var searchEnd := Min(g.end, endHandle);
        var attrs := g.attributes[searchStart - g.start .. searchEnd - g.start + 1];
        assert attrs == GroupSpan(g, startHandle, endHandle);
        s := ReadByTypeRun(attrs, attrType, s0);
      } else {
        assert GroupSpan(g, startHandle, endHandle) == [];
        s := s0;
      }
    }

    /** The outer loop of Read By Type, from grouping i0 on, the groupings before it ending before the range. */
    static method ReadByTypeScan(gs: seq<AttributeGrouping>, i0: nat, startHandle: int, endHandle: int, attrType: Uuid, maxPayload: int)
      returns (s: TypeScan)
      requires Disjoint(gs) && Ranges(gs) && AllValid(gs) && i0 <= |gs|
      requires startHandle <= endHandle
      requires forall j :: 0 <= j < i0 ==> gs[j].end < startHandle
      requires forall j :: i0 <= j < |gs| ==> gs[j].end >= startHandle
      ensures s == TypeFrom(TypeStart(maxPayload), OfType(Span(gs, startHandle, endHandle), attrType))
    {
      ghost var s0 := TypeStart(maxPayload);
      var i := i0;
      SpanEmptyBefore(gs, i, startHandle, endHandle);
      s := TypeStart(maxPayload);
      while i < |gs| && !s.done
        invariant i0 <= i <= |gs|
        invariant s == TypeFrom(s0, OfType(Span(gs[..i], startHandle, endHandle), attrType))
      {
        var g := gs[i];
        if g.start > endHandle {
          SpanPast(gs, i, startHandle, endHandle);
          return;
        }
        TypeSpanStep(s0, gs, i, startHandle, endHandle, attrType);
        s := ReadByTypeIn(g, startHandle, endHandle, attrType, s);
        i := i + 1;
      }
      TypeSpanFinish(s0, gs, i, startHandle, endHandle, attrType);
    }

    /** Database::ReadByType (see TypeScanCharacterized). */
    method ReadByType(startHandle: int, endHandle: int, attrType: Uuid, maxPayload: int)
      returns (err: ErrorCode, results: seq<Attribute>)
      requires Valid()
      requires IsU16(startHandle) && IsU16(endHandle) && IsU16(maxPayload) && maxPayload > 2
      ensures (err, results) == ReadByTypeResult(groupings, startHandle, endHandle, attrType, maxPayload)
    {
      if startHandle == kInvalidHandle || startHandle > endHandle {
        return InvalidHandle, [];
      }
      var gs := groupings;
      var i := LowerBoundByEnd(startHandle);
      if i == |gs| || gs[i].start > endHandle {
        SpanEmptyBefore(gs, i, startHandle, endHandle);
        if i < |gs| { SpanPast(gs, i, startHandle, endHandle); } else { assert gs[..i] == gs; }
        return AttributeNotFound, [];
      }
      var s := ReadByTypeScan(gs, i, startHandle, endHandle, attrType, maxPayload);
      if s.denied {
        return ReadNotPermitted, [];
      }
      if |s.results| == 0 {
        return AttributeNotFound, [];
      }
      return NoError, s.results;
    }
  }
}
