// veda/db/chain_gaps.py: the record of missing block numbers, as a list of
// ranges and the first number missing at the tip.
module ChainGapRecords {
  import opened Wrappers

  datatype Range = Range(low: nat, high: nat)

  datatype ChainGaps = ChainGaps(ranges: seq<Range>, tip: nat)

  datatype GapChange =
    | NoChange | NewGap | GapFill | GapSplit | GapLeftShrink | GapRightShrink | TailWrite

  datatype Error = GapTrackingCorrupted | UnsortedInput

  const GENESIS_CHAIN_GAPS := ChainGaps([], 1)

  predicate IsGapWrite(c: GapChange) {
    c.GapFill? || c.GapSplit? || c.GapLeftShrink? || c.GapRightShrink?
  }

  predicate Covers(r: Range, n: nat) {
    r.low <= n <= r.high
  }

  ghost predicate Held(ranges: seq<Range>, n: nat) {
    exists i :: 0 <= i < |ranges| && Covers(ranges[i], n)
  }

  // The missing numbers: those in a range, and all from the tip on.
  ghost predicate Missing(g: ChainGaps, n: nat) {
    n >= g.tip || Held(g.ranges, n)
  }

  // Sorted, disjoint, not adjacent, and below the tip.
  ghost predicate WellFormed(g: ChainGaps) {
    && (forall i :: 0 <= i < |g.ranges| ==> g.ranges[i].low <= g.ranges[i].high && g.ranges[i].high + 1 < g.tip)
    && (forall i, j :: 0 <= i < j < |g.ranges| ==> g.ranges[i].high + 1 < g.ranges[j].low)
  }

  method IsBlockNumberInGap(n: nat, g: ChainGaps) returns (b: bool)
    requires WellFormed(g)
    ensures b <==> Missing(g, n)
  {
    for i := 0 to |g.ranges|
      invariant forall j :: 0 <= j < i ==> g.ranges[j].high < n
    {
      if g.ranges[i].low > n {
        assert forall j :: i < j < |g.ranges| ==> n < g.ranges[j].low;
        return false;
      } else if g.ranges[i].high >= n {
        assert Covers(g.ranges[i], n);
        return true;
      }
    }
    return n >= g.tip;
  }

  //
  // Equal missing sets have equal records
  //

  // The least missing number starts the first range, or is the tip.
  function Least(g: ChainGaps): nat {
    if g.ranges == [] then g.tip else g.ranges[0].low
  }

  lemma LeastMissing(g: ChainGaps)
    requires WellFormed(g)
    ensures Missing(g, Least(g)) && forall n: nat :: n < Least(g) ==> !Missing(g, n)
    ensures g.ranges != [] ==> !Missing(g, g.ranges[0].high + 1)
    ensures g.ranges != [] ==> forall n: nat :: Covers(g.ranges[0], n) ==> Missing(g, n)
  {
    if g.ranges != [] {
      assert Covers(g.ranges[0], g.ranges[0].low);
      forall n: nat | n < g.ranges[0].low ensures !Missing(g, n) {
        assert forall i :: 0 < i < |g.ranges| ==> n < g.ranges[i].low;
      }
      assert forall i :: 0 < i < |g.ranges| ==> !Covers(g.ranges[i], g.ranges[0].high + 1);
    }
  }

  function DropFirst(g: ChainGaps): ChainGaps
    requires g.ranges != []
  {
    g.(ranges := g.ranges[1..])
  }

  lemma DropFirstMissing(g: ChainGaps, n: nat)
    requires WellFormed(g) && g.ranges != []
    ensures WellFormed(DropFirst(g))
    ensures Missing(DropFirst(g), n) <==> Missing(g, n) && n > g.ranges[0].high
  {
    var d := DropFirst(g);
    assert forall i :: 0 <= i < |d.ranges| ==> d.ranges[i] == g.ranges[i + 1];
    if i :| 0 <= i < |g.ranges| && Covers(g.ranges[i], n) {
      assert i > 0 ==> Covers(d.ranges[i - 1], n);
    }
    if i :| 0 <= i < |d.ranges| && Covers(d.ranges[i], n) {
      assert Covers(g.ranges[i + 1], n);
    }
  }

  lemma {:induction false} MissingDeterminesGaps(g: ChainGaps, h: ChainGaps)
    requires WellFormed(g) && WellFormed(h) && forall n: nat :: Missing(g, n) <==> Missing(h, n)
    ensures g == h
    decreases |g.ranges|
  {
    LeastMissing(g);
    LeastMissing(h);
    assert Least(g) == Least(h) by {
      assert Missing(h, Least(g)) && Missing(g, Least(h));
    }
    if g.ranges != [] && h.ranges != [] {
      var a, b := g.ranges[0], h.ranges[0];
      assert a.high == b.high by {
        assert !Missing(g, a.high + 1) && !Missing(h, b.high + 1);
        assert !Covers(b, a.high + 1) && !Covers(a, b.high + 1);
      }
      forall n: nat ensures Missing(DropFirst(g), n) <==> Missing(DropFirst(h), n) {
        DropFirstMissing(g, n);
        DropFirstMissing(h, n);
      }
      DropFirstMissing(g, 0);
      DropFirstMissing(h, 0);
      MissingDeterminesGaps(DropFirst(g), DropFirst(h));
      assert g.ranges == [a] + g.ranges[1..] && h.ranges == [b] + h.ranges[1..];
    }
  }

  //
  // fill_gap
  //

  // The indices of the ranges that hold n.
  function Matching(ranges: seq<Range>, n: nat): seq<nat> {
    if ranges == [] then []
    else if Covers(Last(ranges), n) then Matching(Front(ranges), n) + [|ranges| - 1]
    else Matching(Front(ranges), n)
  }

  function Shrink(r: Range, n: nat): (GapChange, seq<Range>)
    requires Covers(r, n)
  {
    if n == r.low && n == r.high then (GapFill, [])
    else if n == r.low then (GapLeftShrink, [Range(r.low + 1, r.high)])
    else if n == r.high then (GapRightShrink, [Range(r.low, r.high - 1)])
    else (GapSplit, [Range(r.low, n - 1), Range(n + 1, r.high)])
  }

  lemma {:induction false} MatchingCovers(ranges: seq<Range>, n: nat)
    ensures forall k :: 0 <= k < |Matching(ranges, n)| ==>
              Matching(ranges, n)[k] < |ranges| && Covers(ranges[Matching(ranges, n)[k]], n)
    ensures forall i :: 0 <= i < |ranges| && Covers(ranges[i], n) ==> i in Matching(ranges, n)
    ensures forall k, l :: 0 <= k < l < |Matching(ranges, n)| ==> Matching(ranges, n)[k] < Matching(ranges, n)[l]
  {
    if ranges != [] {
      MatchingCovers(Front(ranges), n);
      forall i | 0 <= i < |ranges| && Covers(ranges[i], n) ensures i in Matching(ranges, n) {
        if i < |ranges| - 1 {
          assert Covers(Front(ranges)[i], n);
        }
      }
    }
  }

  function FillGap(n: nat, g: ChainGaps): Result<(GapChange, ChainGaps), Error> {
    if n == g.tip then Ok((TailWrite, ChainGaps(g.ranges, n + 1)))
    else if n > g.tip then Ok((NewGap, ChainGaps(g.ranges + [Range(g.tip, n - 1)], n + 1)))
    else
      var matching := Matching(g.ranges, n);
      if |matching| > 1 then Err(GapTrackingCorrupted)
      else if |matching| == 0 then Ok((NoChange, g))
      else
        MatchingCovers(g.ranges, n);
        var i := matching[0];
        var (change, center) := Shrink(g.ranges[i], n);
        Ok((change, g.(ranges := g.ranges[..i] + center + g.ranges[i + 1..])))
  }

  // Replacing range i by what is left of it without n.
  lemma ShrinkWellFormed(g: ChainGaps, i: nat, n: nat)
    requires WellFormed(g) && i < |g.ranges| && Covers(g.ranges[i], n)
    ensures WellFormed(g.(ranges := g.ranges[..i] + Shrink(g.ranges[i], n).1 + g.ranges[i + 1..]))
  {
    var center := Shrink(g.ranges[i], n).1;
    var c := |center|;
    var h := g.(ranges := g.ranges[..i] + center + g.ranges[i + 1..]);
    forall j | 0 <= j < |h.ranges|
      ensures h.ranges[j] == if j < i then g.ranges[j] else if j < i + c then center[j - i] else g.ranges[j - c + 1]
    {}
    assert forall j :: 0 <= j < c ==>
      g.ranges[i].low <= center[j].low <= center[j].high <= g.ranges[i].high;
  }

  lemma ShrinkMissing(g: ChainGaps, i: nat, n: nat)
    requires WellFormed(g) && i < |g.ranges| && Covers(g.ranges[i], n)
    ensures var h := g.(ranges := g.ranges[..i] + Shrink(g.ranges[i], n).1 + g.ranges[i + 1..]);
            forall m: nat :: Missing(h, m) <==> Missing(g, m) && m != n
  {
    var r := g.ranges[i];
    var before, center, after := g.ranges[..i], Shrink(r, n).1, g.ranges[i + 1..];
    assert g.ranges == before + [r] + after;
    forall m: nat ensures Held(before + center + after, m) <==> Held(g.ranges, m) && m != n {
      HeldConcat(before + center, after, m);
      HeldConcat(before, center, m);
      HeldConcat(before + [r], after, m);
      HeldConcat(before, [r], m);
      HeldOne(r, m);
      ShrinkHeld(r, n, m);
      if m == n {
        assert !Held(before, n) && !Held(after, n);
      }
    }
  }

  lemma ShrinkHeld(r: Range, n: nat, m: nat)
    requires Covers(r, n)
    ensures Held(Shrink(r, n).1, m) <==> Covers(r, m) && m != n
  {
    var center := Shrink(r, n).1;
    if |center| == 1 {
      HeldOne(center[0], m);
    } else if |center| == 2 {
      HeldSplit(center[0], [center[1]], m);
      HeldOne(center[1], m);
    }
  }

  lemma OneCover(g: ChainGaps, i: nat, j: nat, n: nat)
    requires WellFormed(g) && i < |g.ranges| && j < |g.ranges|
    requires Covers(g.ranges[i], n) && Covers(g.ranges[j], n)
    ensures i == j
  {}

  lemma AtMostOneMatch(g: ChainGaps, n: nat)
    requires WellFormed(g)
    ensures |Matching(g.ranges, n)| <= 1
  {
    hide WellFormed, Matching;
    var m := Matching(g.ranges, n);
    MatchingCovers(g.ranges, n);
    if |m| > 1 {
      OneCover(g, m[0], m[1], n);
    }
  }

  lemma NewGapMissing(g: ChainGaps, n: nat)
    requires WellFormed(g) && n > g.tip
    ensures var h := ChainGaps(g.ranges + [Range(g.tip, n - 1)], n + 1);
            WellFormed(h) && forall m: nat :: Missing(h, m) <==> Missing(g, m) && m != n
  {
    var r := Range(g.tip, n - 1);
    assert WellFormed(ChainGaps(g.ranges + [r], n + 1));
    forall m: nat ensures Held(g.ranges + [r], m) <==> Held(g.ranges, m) || g.tip <= m < n {
      HeldConcat(g.ranges, [r], m);
      HeldOne(r, m);
    }
    assert !Held(g.ranges, n);
  }

  // fill_gap takes exactly n out of the missing numbers, and never finds the
  // record corrupted.  A write into a gap is a write of a missing number below
  // the tip; it links up to the right when the next number is present.
  lemma FillGapFills(n: nat, g: ChainGaps)
    requires WellFormed(g)
    ensures FillGap(n, g).Ok?
    ensures var (change, h) := FillGap(n, g).value;
            && WellFormed(h)
            && (forall m: nat :: Missing(h, m) <==> Missing(g, m) && m != n)
            && (change == TailWrite <==> n == g.tip) && (change == NewGap <==> n > g.tip)
            && (IsGapWrite(change) <==> Missing(g, n) && n < g.tip)
            && (change == GapFill || change == GapRightShrink <==> Missing(g, n) && !Missing(g, n + 1))
            && (change == NoChange ==> h == g)
  {
    hide Held;
    var matching := Matching(g.ranges, n);
    if n > g.tip {
      NewGapMissing(g, n);
      NothingHeldAbove(g, n);
      NothingHeldAbove(g, n + 1);
    } else if n == g.tip {
      NothingHeldAbove(g, n);
    } else {
      MatchingCovers(g.ranges, n);
      AtMostOneMatch(g, n);
      MatchingIffHeld(g.ranges, n);
      if |matching| == 1 {
        var i := matching[0];
        ShrinkWellFormed(g, i, n);
        ShrinkMissing(g, i, n);
        NextMissing(g, i, n);
      }
    }
  }

  lemma NothingHeldAbove(g: ChainGaps, n: nat)
    requires WellFormed(g) && n >= g.tip
    ensures !Held(g.ranges, n)
  {}

  lemma MatchingIffHeld(ranges: seq<Range>, n: nat)
    ensures Matching(ranges, n) != [] <==> Held(ranges, n)
  {
    MatchingCovers(ranges, n);
    if Matching(ranges, n) != [] {
      assert Covers(ranges[Matching(ranges, n)[0]], n);
    }
  }

  lemma NextMissing(g: ChainGaps, i: nat, n: nat)
    requires WellFormed(g) && i < |g.ranges| && Covers(g.ranges[i], n)
    ensures Missing(g, n + 1) <==> n < g.ranges[i].high
  {
    if n < g.ranges[i].high {
      assert Covers(g.ranges[i], n + 1);
    }
  }

  //
  // reopen_gap
  //

  predicate Before(a: Range, b: Range) {
    a.low < b.low || (a.low == b.low && a.high <= b.high)
  }

  // Sorting, by insertion from the right.
  function Insert(sorted: seq<Range>, r: Range): seq<Range> {
    if sorted == [] || Before(Last(sorted), r) then sorted + [r]
    else Insert(Front(sorted), r) + [Last(sorted)]
  }

  function Sort(ranges: seq<Range>): seq<Range> {
    if ranges == [] then [] else Insert(Sort(Front(ranges)), Last(ranges))
  }

  function Wider(pending: Range, next: Range): Range {
    Range(pending.low, if next.high > pending.high then next.high else pending.high)
  }

  // Join the ranges to the pending one as long as they overlap or touch it.
  function Join(pending: Range, rest: seq<Range>): Result<seq<Range>, Error>
    decreases |rest|
  {
    if rest == [] then Ok([pending])
    else if rest[0].low < pending.low then Err(UnsortedInput)
    else if rest[0].low <= pending.high + 1 then
      Join(Wider(pending, rest[0]), rest[1..])
    else
      match Join(rest[0], rest[1..])
      case Err(e) => Err(e)
      case Ok(joined) => Ok([pending] + joined)
  }

  method JoinOverlappingGaps(unjoined: seq<Range>) returns (r: Result<seq<Range>, Error>)
    ensures r == if unjoined == [] then Ok([]) else Join(unjoined[0], unjoined[1..])
  {
    if unjoined == [] {
      return Ok([]);
    }
    var yielded: seq<Range> := [];
    var pending := unjoined[0];
    ghost var goal := Join(unjoined[0], unjoined[1..]);
    assert goal.Ok? ==> yielded + goal.value == goal.value;
    for i := 1 to |unjoined|
      invariant goal == Prepend(yielded, Join(pending, unjoined[i..]))
    {
      var next := unjoined[i];
      assert unjoined[i..][0] == next && unjoined[i..][1..] == unjoined[i + 1..];
      if next.low < pending.low {
        return Err(UnsortedInput);
      } else if next.low <= pending.high + 1 {
        pending := Range(pending.low, if next.high > pending.high then next.high else pending.high);
      } else {
        assert forall s :: yielded + ([pending] + s) == yielded + [pending] + s;
        yielded := yielded + [pending];
        pending := next;
      }
    }
    return Ok(yielded + [pending]);
  }

  function Prepend(yielded: seq<Range>, r: Result<seq<Range>, Error>): Result<seq<Range>, Error> {
    if r.Ok? then Ok(yielded + r.value) else r
  }

  function ReopenGap(n: nat, g: ChainGaps): Result<ChainGaps, Error> {
    if g.tip <= n then Ok(g)
    else
      var sorted := Sort(g.ranges + [Range(n, n)]);
      if sorted == [] then Ok(g)
      else
        match Join(sorted[0], sorted[1..])
        case Err(e) => Err(e)
        case Ok(joined) =>
          if joined == [] then Ok(g)
          else if Last(joined).high + 1 >= g.tip then Ok(ChainGaps(Front(joined), Last(joined).low))
          else Ok(ChainGaps(joined, g.tip))
  }

  ghost predicate Apart(ranges: seq<Range>) {
    && (forall i :: 0 <= i < |ranges| ==> ranges[i].low <= ranges[i].high)
    && (forall i, j :: 0 <= i < j < |ranges| ==> ranges[i].high + 1 < ranges[j].low)
  }

  ghost predicate Sorted(ranges: seq<Range>) {
    forall i, j :: 0 <= i < j < |ranges| ==> ranges[i].low <= ranges[j].low
  }

  lemma HeldConcat(a: seq<Range>, b: seq<Range>, n: nat)
    ensures Held(a + b, n) <==> Held(a, n) || Held(b, n)
  {
    if i :| 0 <= i < |a| && Covers(a[i], n) {
      assert (a + b)[i] == a[i];
    }
    if i :| 0 <= i < |b| && Covers(b[i], n) {
      assert (a + b)[|a| + i] == b[i];
    }
    if i :| 0 <= i < |a + b| && Covers((a + b)[i], n) {
      assert if i < |a| then (a + b)[i] == a[i] else (a + b)[i] == b[i - |a|];
    }
  }

  lemma HeldOne(r: Range, n: nat)
    ensures Held([r], n) <==> Covers(r, n)
  {
    if Covers(r, n) {
      assert Covers([r][0], n);
    }
  }

  // Insertion keeps a list sorted and adds just the inserted range.
  lemma {:induction false} InsertSorts(sorted: seq<Range>, r: Range)
    requires Sorted(sorted)
    ensures Sorted(Insert(sorted, r))
    ensures multiset(Insert(sorted, r)) == multiset(sorted) + multiset{r}
    ensures forall n: nat :: Held(Insert(sorted, r), n) <==> Held(sorted, n) || Covers(r, n)
    ensures forall x :: x in Insert(sorted, r) <==> x in sorted || x == r
  {
    if sorted == [] || Before(Last(sorted), r) {
      forall n: nat ensures Held(sorted + [r], n) <==> Held(sorted, n) || Covers(r, n) {
        HeldConcat(sorted, [r], n);
        HeldOne(r, n);
      }
    } else {
      var z := Last(sorted);
      InsertSorts(Front(sorted), r);
      assert sorted == Front(sorted) + [z];
      forall i | 0 <= i < |Insert(Front(sorted), r)| ensures Insert(Front(sorted), r)[i].low <= z.low {
        assert Insert(Front(sorted), r)[i] in Front(sorted) || Insert(Front(sorted), r)[i] == r;
      }
      forall n: nat ensures Held(Insert(sorted, r), n) <==> Held(sorted, n) || Covers(r, n) {
        HeldConcat(Front(sorted), [z], n);
        HeldConcat(Insert(Front(sorted), r), [z], n);
      }
    }
  }

  lemma {:induction false} SortSorts(ranges: seq<Range>)
    ensures Sorted(Sort(ranges)) && multiset(Sort(ranges)) == multiset(ranges)
    ensures forall n: nat :: Held(Sort(ranges), n) <==> Held(ranges, n)
  {
    if ranges != [] {
      SortSorts(Front(ranges));
      InsertSorts(Sort(Front(ranges)), Last(ranges));
      assert ranges == Front(ranges) + [Last(ranges)];
      forall n: nat ensures Held(Sort(ranges), n) <==> Held(ranges, n) {
        HeldConcat(Front(ranges), [Last(ranges)], n);
        HeldOne(Last(ranges), n);
      }
    }
  }

  lemma MergeNext(pending: Range, next: Range, rest: seq<Range>)
    requires Sorted([pending] + ([next] + rest)) && pending.low <= pending.high && next.low <= next.high
    requires next.low <= pending.high + 1
    ensures Sorted([Wider(pending, next)] + rest)
    ensures forall n: nat :: Held([Wider(pending, next)] + rest, n) <==> Held([pending] + ([next] + rest), n)
  {
    hide Held;
    var wider, all := Wider(pending, next), [pending] + ([next] + rest);
    assert all[0].low <= all[1].low;
    forall i, j | 0 <= i < j < |rest| + 1
      ensures ([wider] + rest)[i].low <= ([wider] + rest)[j].low
    {
      assert ([wider] + rest)[j] == all[j + 1] && ([wider] + rest)[i] == if i == 0 then wider else all[i + 1];
      assert all[0].low <= all[j + 1].low;
    }
    forall n: nat ensures Held([wider] + rest, n) <==> Held(all, n) {
      HeldSplit(wider, rest, n);
      HeldSplit(pending, [next] + rest, n);
      HeldSplit(next, rest, n);
    }
  }

  lemma SortedTail(r: Range, rest: seq<Range>)
    requires Sorted([r] + rest)
    ensures Sorted(rest)
  {
    forall i, j | 0 <= i < j < |rest| ensures rest[i].low <= rest[j].low {
      assert ([r] + rest)[i + 1] == rest[i] && ([r] + rest)[j + 1] == rest[j];
    }
  }

  // Joining a sorted list never finds it unsorted; the result holds the same
  // numbers in ranges that are apart.
  lemma {:induction false} JoinNormalises(pending: Range, rest: seq<Range>)
    requires Sorted([pending] + rest)
    requires pending.low <= pending.high && forall r :: r in rest ==> r.low <= r.high
    ensures Join(pending, rest).Ok?
    ensures var joined := Join(pending, rest).value;
            && joined != [] && joined[0].low == pending.low && Apart(joined)
            && forall n: nat :: Held(joined, n) <==> Held([pending] + rest, n)
    decreases |rest|
  {
    hide Held, Sorted;
    if rest == [] {
      assert [pending] + rest == [pending];
    } else {
      var next := rest[0];
      assert rest == [next] + rest[1..];
      assert pending.low <= next.low by {
        FirstTwo([pending] + rest);
      }
      if next.low <= pending.high + 1 {
        MergeNext(pending, next, rest[1..]);
        JoinNormalises(Wider(pending, next), rest[1..]);
      } else {
        SortedTail(pending, rest);
        JoinNormalises(next, rest[1..]);
        var joined := Join(next, rest[1..]).value;
        ApartExtend(pending, joined);
        forall n: nat ensures Held([pending] + joined, n) <==> Held([pending] + rest, n) {
          HeldSplit(pending, rest, n);
          HeldSplit(pending, joined, n);
        }
      }
    }
  }

  lemma FirstTwo(ranges: seq<Range>)
    requires Sorted(ranges) && |ranges| > 1
    ensures ranges[0].low <= ranges[1].low
  {}

  lemma HeldSplit(r: Range, rest: seq<Range>, n: nat)
    ensures Held([r] + rest, n) <==> Covers(r, n) || Held(rest, n)
  {
    HeldConcat([r], rest, n);
    HeldOne(r, n);
  }

  lemma ApartExtend(r: Range, rest: seq<Range>)
    requires r.low <= r.high && Apart(rest) && rest != [] && r.high + 1 < rest[0].low
    ensures Apart([r] + rest)
  {
    var all := [r] + rest;
    forall i, j | 0 <= i < j < |all| ensures all[i].high + 1 < all[j].low {
      assert all[j] == rest[j - 1];
      assert i > 0 ==> all[i] == rest[i - 1];
    }
  }

  lemma SortThenJoin(raw: seq<Range>)
    requires raw != [] && forall r :: r in raw ==> r.low <= r.high
    ensures Sort(raw) != [] && Join(Sort(raw)[0], Sort(raw)[1..]).Ok?
    ensures var joined := Join(Sort(raw)[0], Sort(raw)[1..]).value;
            joined != [] && Apart(joined) && forall n: nat :: Held(joined, n) <==> Held(raw, n)
  {
    var sorted := Sort(raw);
    SortSorts(raw);
    assert raw[0] in multiset(raw);
    forall x | x in sorted ensures x.low <= x.high {
      assert x in multiset(sorted);
      assert x in raw;
    }
    assert raw[0] in sorted;
    assert sorted == [sorted[0]] + sorted[1..];
    JoinNormalises(sorted[0], sorted[1..]);
  }

  // reopen_gap adds exactly n to the missing numbers.
  lemma ReopenGapReopens(n: nat, g: ChainGaps)
    requires WellFormed(g)
    ensures ReopenGap(n, g).Ok?
    ensures var h := ReopenGap(n, g).value;
            WellFormed(h) && forall m: nat :: Missing(h, m) <==> Missing(g, m) || m == n
  {
    hide Sort, Join, Held;
    if n < g.tip {
      var raw := g.ranges + [Range(n, n)];
      SortThenJoin(raw);
      var joined := Join(Sort(raw)[0], Sort(raw)[1..]).value;
      forall m: nat ensures Held(joined, m) <==> Held(g.ranges, m) || m == n {
        HeldConcat(g.ranges, [Range(n, n)], m);
        HeldOne(Range(n, n), m);
      }
      MergeTail(g, joined, n);
    }
  }

  // Merging a last range that touches the tip into the tip.
  lemma MergeTail(g: ChainGaps, joined: seq<Range>, n: nat)
    requires WellFormed(g) && n < g.tip && joined != [] && Apart(joined)
    requires forall m: nat :: Held(joined, m) <==> Held(g.ranges, m) || m == n
    ensures var h := if Last(joined).high + 1 >= g.tip then ChainGaps(Front(joined), Last(joined).low)
                     else ChainGaps(joined, g.tip);
            WellFormed(h) && forall m: nat :: Missing(h, m) <==> Missing(g, m) || m == n
  {
    var z := Last(joined);
    assert joined == Front(joined) + [z];
    assert Covers(joined[|joined| - 1], z.high);
    assert Held(joined, z.high);
    assert !Held(g.ranges, z.high) || z.high < g.tip;
    forall m: nat ensures Held(joined, m) <==> Held(Front(joined), m) || Covers(z, m) {
      HeldConcat(Front(joined), [z], m);
      HeldOne(z, m);
    }
    assert forall i :: 0 <= i < |joined| ==> joined[i].high <= z.high;
    forall m: nat | m >= g.tip ensures !Held(Front(joined), m) {}
  }

  lemma GenesisWellFormed()
    ensures WellFormed(GENESIS_CHAIN_GAPS)
    ensures forall n: nat :: Missing(GENESIS_CHAIN_GAPS, n) <==> n != 0
  {}

  //
  // Runs of fills and reopenings
  //

  datatype Change = Fill(number: nat) | Reopen(number: nat)

  function Apply(c: Change, g: ChainGaps): Result<ChainGaps, Error> {
    match c
    case Fill(n) =>
      var r := FillGap(n, g);
      if r.Ok? then Ok(r.value.1) else Err(r.error)
    case Reopen(n) => ReopenGap(n, g)
  }

  function ApplyAll(changes: seq<Change>, g: ChainGaps): Result<ChainGaps, Error> {
    if changes == [] then Ok(g)
    else
      var r := Apply(changes[0], g);
      if r.Ok? then ApplyAll(changes[1..], r.value) else r
  }

  // Whether n is missing after the changes: the last change of n decides.
  predicate MissingAfter(changes: seq<Change>, was: bool, n: nat) {
    if changes == [] then was
    else MissingAfter(changes[1..], if changes[0].number == n then changes[0].Reopen? else was, n)
  }

  lemma {:induction false} RunKeeps(changes: seq<Change>, g: ChainGaps)
    requires WellFormed(g)
    ensures ApplyAll(changes, g).Ok? && WellFormed(ApplyAll(changes, g).value)
    ensures forall n: nat :: Missing(ApplyAll(changes, g).value, n) <==> MissingAfter(changes, Missing(g, n), n)
    decreases |changes|
  {
    if changes != [] {
      FillGapFills(changes[0].number, g);
      ReopenGapReopens(changes[0].number, g);
      RunKeeps(changes[1..], Apply(changes[0], g).value);
    }
  }

  // The record after any run is a function of which numbers are missing.
  lemma RunsAgree(a: seq<Change>, b: seq<Change>, g: ChainGaps)
    requires WellFormed(g)
    requires forall n: nat :: MissingAfter(a, Missing(g, n), n) <==> MissingAfter(b, Missing(g, n), n)
    ensures ApplyAll(a, g) == ApplyAll(b, g)
  {
    RunKeeps(a, g);
    RunKeeps(b, g);
    MissingDeterminesGaps(ApplyAll(a, g).value, ApplyAll(b, g).value);
  }

  lemma FillsCommute(m: nat, n: nat, g: ChainGaps)
    requires WellFormed(g)
    ensures ApplyAll([Fill(m), Fill(n)], g) == ApplyAll([Fill(n), Fill(m)], g)
  {
    forall k: nat ensures MissingAfter([Fill(m), Fill(n)], Missing(g, k), k)
                     <==> MissingAfter([Fill(n), Fill(m)], Missing(g, k), k) {
      TwoChanges(Fill(m), Fill(n), Missing(g, k), k);
      TwoChanges(Fill(n), Fill(m), Missing(g, k), k);
    }
    RunsAgree([Fill(m), Fill(n)], [Fill(n), Fill(m)], g);
  }

  lemma TwoChanges(c: Change, d: Change, was: bool, n: nat)
    ensures MissingAfter([c, d], was, n) ==
            if d.number == n then d.Reopen? else if c.number == n then c.Reopen? else was
  {
    assert [c, d][1..] == [d] && [d][1..] == [];
    assert MissingAfter([d], if c.number == n then c.Reopen? else was, n) ==
           if d.number == n then d.Reopen? else if c.number == n then c.Reopen? else was;
  }

  // Filling a number undoes reopening it just when it was present, and
  // reopening it undoes filling it just when it was missing.
  lemma UndoneIff(n: nat, g: ChainGaps)
    requires WellFormed(g)
    ensures ApplyAll([Reopen(n), Fill(n)], g) == Ok(g) <==> !Missing(g, n)
    ensures ApplyAll([Fill(n), Reopen(n)], g) == Ok(g) <==> Missing(g, n)
  {
    var a, b := [Reopen(n), Fill(n)], [Fill(n), Reopen(n)];
    RunKeeps(a, g);
    RunKeeps(b, g);
    forall k: nat
      ensures MissingAfter(a, Missing(g, k), k) == (k != n && Missing(g, k))
      ensures MissingAfter(b, Missing(g, k), k) == (k == n || Missing(g, k))
    {
      TwoChanges(Reopen(n), Fill(n), Missing(g, k), k);
      TwoChanges(Fill(n), Reopen(n), Missing(g, k), k);
    }
    if Missing(g, n) {
      MissingDeterminesGaps(ApplyAll(b, g).value, g);
    } else {
      MissingDeterminesGaps(ApplyAll(a, g).value, g);
    }
  }
}
