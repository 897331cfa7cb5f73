// veda/vm/memory.py and the memory expansion of veda/vm/computation.py.
module MemoryGas {
  import opened Wrappers
  import opened GasMeters

  const GAS_MEMORY := 3
  const GAS_MEMORY_QUADRATIC_DENOMINATOR := 512

  function Ceil32(n: nat): (c: nat)
    ensures n <= c < n + 32 && c % 32 == 0
  {
    var remainder := n % 32;
    if remainder == 0 then n else n + 32 - remainder
  }

  function WordsCost(words: nat): nat {
    words * GAS_MEMORY + words * words / GAS_MEMORY_QUADRATIC_DENOMINATOR
  }

  function MemoryGasCost(bytes: nat): nat {
    WordsCost(Ceil32(bytes) / 32)
  }

  // The cost of w words is w * (3 + w / 512), rounded down.
  lemma CostIsRounded(bytes: nat, w: nat)
    requires bytes <= 32 * w < bytes + 32
    ensures 512 * MemoryGasCost(bytes) <= w * (1536 + w) < 512 * (MemoryGasCost(bytes) + 1)
  {
    assert Ceil32(bytes) == 32 * w;
    assert w * (1536 + w) == 512 * (3 * w) + w * w;
  }

  lemma SquareGrows(a: nat, b: nat)
    requires a <= b
    ensures a * a <= b * b
  {
    ProductGrows(a, b, a);
    ProductGrows(a, b, b);
  }

  lemma ProductGrows(a: nat, b: nat, c: nat)
    requires a <= b
    ensures a * c <= b * c && c * a <= c * b
  {
    var d: nat := b - a;
    assert b * c == a * c + d * c;
    assert d * c >= 0;
  }

  lemma DivKeepsOrder(x: nat, y: nat)
    requires x <= y
    ensures x / GAS_MEMORY_QUADRATIC_DENOMINATOR <= y / GAS_MEMORY_QUADRATIC_DENOMINATOR
  {}

  lemma CostGrows(a: nat, b: nat)
    requires a < b
    ensures WordsCost(a) < WordsCost(b)
  {
    SquareGrows(a, b);
    DivKeepsOrder(a * a, b * b);
  }

  // On whole words the cost orders sizes as they are ordered themselves.
  lemma CostOrdersSizes(a: nat, b: nat)
    requires a % 32 == 0 && b % 32 == 0
    ensures MemoryGasCost(a) < MemoryGasCost(b) <==> a < b
  {
    assert Ceil32(a) == a && Ceil32(b) == b;
    if a < b {
      assert a / 32 < b / 32;
      CostGrows(a / 32, b / 32);
    } else if b < a {
      assert b / 32 < a / 32;
      CostGrows(b / 32, a / 32);
    }
  }

  datatype MemoryError = Gas(failure: Failure) | OutOfRange | WrongLength

  class Memory {
    var bytes: seq<nat>
    const meter: GasMeter

    // Whole words, and all of it paid for: start is the gas before the first
    // expansion, other what the meter was charged besides.
    ghost predicate Paid(start: int, other: int)
      reads this, meter
    {
      |bytes| % 32 == 0 && start - meter.gasRemaining == MemoryGasCost(|bytes|) + other
    }

    constructor (gasMeter: GasMeter)
      ensures bytes == [] && meter == gasMeter && Paid(gasMeter.gasRemaining, 0)
    {
      bytes, meter := [], gasMeter;
    }

    // Memory.extend: whole words of zeros, never shrinking.
    method Extend(start: nat, size: nat)
      requires |bytes| % 32 == 0
      modifies this`bytes
      ensures |bytes| == if size == 0 || Ceil32(start + size) <= old(|bytes|) then old(|bytes|) else Ceil32(start + size)
      ensures old(bytes) <= bytes && forall i :: old(|bytes|) <= i < |bytes| ==> bytes[i] == 0
    {
      if size == 0 {
        return;
      }
      var newSize := Ceil32(start + size);
      if newSize <= |bytes| {
        return;
      }
      bytes := bytes + seq(newSize - |bytes|, _ => 0);
    }

    // extend_memory: an expansion that succeeds is charged exactly the
    // difference in cost, and afterwards the range lies inside; one that fails
    // changes nothing.
    method ExtendMemory(start: nat, size: nat, ghost gasAtStart: int, ghost other: int) returns (failure: Option<Failure>)
      requires Paid(gasAtStart, other)
      modifies this`bytes, meter`gasRemaining
      ensures Paid(gasAtStart, other)
      ensures failure == None ==>
                && (size > 0 ==> start + size <= |bytes|)
                && |bytes| == (if size == 0 || Ceil32(start + size) <= old(|bytes|) then old(|bytes|) else Ceil32(start + size))
                && old(bytes) <= bytes && forall i :: old(|bytes|) <= i < |bytes| ==> bytes[i] == 0
      ensures failure.Some? <==>
                size > 0 && MemoryGasCost(start + size) - MemoryGasCost(old(|bytes|)) > old(meter.gasRemaining)
                && start + size > old(|bytes|)
      ensures failure.Some? ==> bytes == old(bytes) && meter.gasRemaining == old(meter.gasRemaining)
    {
      var beforeSize := Ceil32(|bytes|);
      var afterSize := Ceil32(start + size);
      var beforeCost := MemoryGasCost(beforeSize);
      var afterCost := MemoryGasCost(afterSize);
      CostOrdersSizes(beforeSize, afterSize);
      SameWords(|bytes|, start + size);
      failure := None;
      if size > 0 {
        if beforeCost < afterCost {
          failure := meter.ConsumeGas(afterCost - beforeCost);
          if failure.Some? {
            return;
          }
        }
        Extend(start, size);
      }
    }

    // Memory.write: the range must lie inside; only it changes.
    method Write(start: nat, size: nat, value: seq<nat>) returns (failure: Option<MemoryError>)
      modifies this`bytes
      ensures failure == (if size == 0 then None
                          else if |value| != size then Some(WrongLength)
                          else if start + size > old(|bytes|) then Some(OutOfRange) else None)
      ensures |bytes| == old(|bytes|)
      ensures failure.Some? || size == 0 ==> bytes == old(bytes)
      ensures failure == None && size > 0 ==>
                && bytes[start..start + size] == value
                && bytes[..start] == old(bytes)[..start] && bytes[start + size..] == old(bytes)[start + size..]
    {
      if size == 0 {
        return None;
      }
      if |value| != size {
        return Some(WrongLength);
      }
      if start + size > |bytes| {
        return Some(OutOfRange);
      }
      for i := 0 to size
        invariant bytes == old(bytes)[..start] + value[..i] + old(bytes)[start + i..]
      {
        bytes := bytes[start + i := value[i]];
        assert bytes == old(bytes)[..start] + value[..i + 1] + old(bytes)[start + i + 1..];
      }
      assert value[..size] == value;
      return None;
    }

    method ReadBytes(start: nat, size: nat) returns (value: seq<nat>)
      ensures |value| == if start >= |bytes| then 0 else if start + size <= |bytes| then size else |bytes| - start
      ensures forall i :: 0 <= i < |value| ==> value[i] == bytes[start + i]
    {
      var low := if start <= |bytes| then start else |bytes|;
      var high := if start + size <= |bytes| then start + size else |bytes|;
      value := bytes[low..high];
    }

    // Any sequence of expansions: while they succeed, what they were charged is
    // the cost of the memory there is, whatever the overlaps.
    method ExtendAll(ranges: seq<(nat, nat)>) returns (failure: Option<Failure>)
      requires bytes == []
      modifies this`bytes, meter`gasRemaining
      ensures |bytes| % 32 == 0 && old(meter.gasRemaining) - meter.gasRemaining == MemoryGasCost(|bytes|)
      ensures failure == None ==> |bytes| == Needed(ranges)
    {
      ghost var start := meter.gasRemaining;
      failure := None;
      for i := 0 to |ranges|
        invariant failure == None && Paid(start, 0) && |bytes| == Needed(ranges[..i])
      {
        assert Front(ranges[..i + 1]) == ranges[..i];
        failure := ExtendMemory(ranges[i].0, ranges[i].1, start, 0);
        if failure.Some? {
          return;
        }
      }
      assert ranges[..|ranges|] == ranges;
    }
  }

  lemma CeilTwice(a: nat)
    ensures Ceil32(Ceil32(a)) == Ceil32(a)
  {}

  // Costs depend on whole words only.
  lemma SameWords(a: nat, b: nat)
    ensures MemoryGasCost(Ceil32(a)) == MemoryGasCost(a) && MemoryGasCost(Ceil32(b)) == MemoryGasCost(b)
    ensures Ceil32(a) < Ceil32(b) <==> b > Ceil32(a)
  {
    hide WordsCost;
    CeilTwice(a);
    CeilTwice(b);
  }

  // The size that holds all the ranges, in whole words.
  function Needed(ranges: seq<(nat, nat)>): nat {
    if ranges == [] then 0
    else
      var before := Needed(Front(ranges));
      var (start, size) := Last(ranges);
      if size == 0 || Ceil32(start + size) <= before then before else Ceil32(start + size)
  }

  // The needed size is the end of the furthest range, in whole words.
  lemma {:induction false} NeededIsFurthest(ranges: seq<(nat, nat)>)
    ensures forall r :: r in ranges && r.1 > 0 ==> Ceil32(r.0 + r.1) <= Needed(ranges)
    ensures Needed(ranges) == 0 || exists r :: r in ranges && r.1 > 0 && Needed(ranges) == Ceil32(r.0 + r.1)
  {
    if ranges != [] {
      NeededIsFurthest(Front(ranges));
      assert ranges == Front(ranges) + [Last(ranges)];
      assert forall r :: r in ranges <==> r in Front(ranges) || r == Last(ranges);
    }
  }
}
