// veda/vm/logic/storage.py: net gas metering of storage writes (EIP-2200).
module NetStorageGas {
  import opened Wrappers
  import opened GasMeters

  datatype Schedule = Schedule(sload: int, set_: int, reset: int, clears: int)

  // The schedule of veda/vm/forks/veda/storage.py.
  const EIP3529_SCHEDULE := Schedule(100, 20000, 5000 - 2100, 5000 - 2100 + 1900)

  // Set and reset cost at least a load, and clearing is not punished.
  predicate Reasonable(g: Schedule) {
    g.set_ >= g.sload && g.reset >= g.sload && g.clears >= 0
  }

  //
  // One write
  //

  // The gas charged and the gas refunded for a write to a slot.
  datatype Price = Price(cost: int, refund: int)

  function WritePrice(g: Schedule, original: nat, current: nat, value: nat): Price {
    if current == value then Price(g.sload, 0)
    else if original == current then
      if original == 0 then Price(g.set_, 0)
      else Price(g.reset, if value == 0 then g.clears else 0)
    else
      var uncleared := if original != 0 && current == 0 then -g.clears else 0;
      var cleared := if original != 0 && value == 0 then g.clears else 0;
      var restored :=
        if original != value then 0 else if original == 0 then g.set_ - g.sload else g.reset - g.sload;
      Price(g.sload, uncleared + cleared + restored)
  }

  // What having a slot at a value is worth, apart from the loads paid for.
  function Potential(g: Schedule, original: nat, current: nat): int {
    if current == original then 0
    else if original == 0 then g.set_ - g.sload
    else if current == 0 then g.reset - g.sload - g.clears
    else g.reset - g.sload
  }

  lemma WriteMovesPotential(g: Schedule, original: nat, current: nat, value: nat)
    ensures var p := WritePrice(g, original, current, value);
            p.cost - p.refund == g.sload + Potential(g, original, value) - Potential(g, original, current)
  {}

  //
  // Any number of writes
  //

  function Total(g: Schedule, original: nat, current: nat, values: seq<nat>): Price {
    if values == [] then Price(0, 0)
    else
      var before := Total(g, original, current, Front(values));
      var p := WritePrice(g, original, FinalValue(current, Front(values)), Last(values));
      Price(before.cost + p.cost, before.refund + p.refund)
  }

  function FinalValue(current: nat, values: seq<nat>): nat {
    if values == [] then current else Last(values)
  }

  // However a slot is written, the net gas is one load per write and what the
  // final value is worth.
  lemma {:induction false} NetGasTelescopes(g: Schedule, original: nat, values: seq<nat>)
    ensures var t := Total(g, original, original, values);
            t.cost - t.refund == |values| * g.sload + Potential(g, original, FinalValue(original, values))
  {
    hide WritePrice, Potential;
    if values == [] {
      assert Potential(g, original, original) == 0 by {
        Unchanged(g, original);
      }
    } else {
      NetGasTelescopes(g, original, Front(values));
      WriteMovesPotential(g, original, FinalValue(original, Front(values)), Last(values));
      OneMore(|Front(values)|, g.sload);
    }
  }

  lemma Unchanged(g: Schedule, original: nat)
    ensures Potential(g, original, original) == 0
  {}

  lemma OneMore(n: nat, x: int)
    ensures (n + 1) * x == n * x + x
  {}

  // The writes that take the slot away from its original value.
  function Departures(original: nat, current: nat, values: seq<nat>): nat {
    if values == [] then 0
    else
      var before := FinalValue(current, Front(values));
      Departures(original, current, Front(values)) + if before == original && Last(values) != original then 1 else 0
  }

  // The charge is one load per write, and the rest of a set or a reset for
  // every departure from the original value.
  lemma {:induction false} CostCountsDepartures(g: Schedule, original: nat, values: seq<nat>)
    ensures Total(g, original, original, values).cost ==
            |values| * g.sload
            + Departures(original, original, values) * ((if original == 0 then g.set_ else g.reset) - g.sload)
  {
    var price := (if original == 0 then g.set_ else g.reset) - g.sload;
    if values != [] {
      CostCountsDepartures(g, original, Front(values));
      OneMore(|Front(values)|, g.sload);
      OneMore(Departures(original, original, Front(values)), price);
      ChargeOfOne(g, original, FinalValue(original, Front(values)), Last(values));
    }
  }

  lemma {:induction false} CostGrows(g: Schedule, original: nat, values: seq<nat>, i: nat)
    requires Reasonable(g) && g.sload >= 0 && i <= |values|
    ensures Total(g, original, original, values[..i]).cost <= Total(g, original, original, values).cost
  {
    if i < |values| {
      CostGrows(g, original, Front(values), i);
      assert Front(values)[..i] == values[..i];
    } else {
      assert values[..i] == values;
    }
  }

  lemma ChargeOfOne(g: Schedule, original: nat, current: nat, value: nat)
    ensures WritePrice(g, original, current, value).cost ==
            if current == original && value != original
            then g.sload + ((if original == 0 then g.set_ else g.reset) - g.sload) else g.sload
  {}

  // What the refunds leave of the charge: nothing but the loads when the slot
  // ends at its original value, otherwise one set, or one reset that a cleared
  // slot gives back in part.
  lemma NetGasByCase(g: Schedule, original: nat, values: seq<nat>)
    ensures var t, final := Total(g, original, original, values), FinalValue(original, values);
            t.cost - t.refund == |values| * g.sload +
              if final == original then 0
              else if original == 0 then g.set_ - g.sload
              else if final == 0 then g.reset - g.sload - g.clears
              else g.reset - g.sload
  {
    NetGasTelescopes(g, original, values);
  }

  // The order of the writes in between does not matter.
  lemma SameFinalSameNet(g: Schedule, original: nat, a: seq<nat>, b: seq<nat>)
    requires |a| == |b| && FinalValue(original, a) == FinalValue(original, b)
    ensures var t, s := Total(g, original, original, a), Total(g, original, original, b);
            t.cost - t.refund == s.cost - s.refund
  {
    NetGasTelescopes(g, original, a);
    NetGasTelescopes(g, original, b);
  }

  // The running refund is never negative; a slot now cleared still holds the
  // refund for it.
  lemma {:induction false} RefundStaysNonNegative(g: Schedule, original: nat, values: seq<nat>)
    requires Reasonable(g)
    ensures Total(g, original, original, values).refund >=
            if original != 0 && FinalValue(original, values) == 0 then g.clears else 0
  {
    if values != [] {
      RefundStaysNonNegative(g, original, Front(values));
    }
  }

  // Some schedule that is not reasonable lets the running refund go negative.
  lemma UnreasonableGoesNegative(g: Schedule)
    requires g.set_ < g.sload || g.reset < g.sload || g.clears < 0
    ensures exists original: nat, values: seq<nat> :: Total(g, original, original, values).refund < 0
  {
    if g.clears < 0 {
      assert Total(g, 1, 1, [0]).refund == g.clears by {
        assert Front([0]) == [];
      }
    } else if g.set_ < g.sload {
      TwoWrites(g, 0, 1, 0);
    } else {
      TwoWrites(g, 1, 2, 1);
    }
  }

  lemma TwoWrites(g: Schedule, original: nat, a: nat, b: nat)
    ensures Total(g, original, original, [a, b]).refund ==
            WritePrice(g, original, original, a).refund + WritePrice(g, original, a, b).refund
  {
    assert Front([a, b]) == [a] && Front([a]) == [];
    assert Total(g, original, original, []) == Price(0, 0);
    assert Total(g, original, original, [a]).refund == WritePrice(g, original, original, a).refund;
  }

  lemma ForkScheduleReasonable()
    ensures Reasonable(EIP3529_SCHEDULE)
  {}

  //
  // The operation
  //

  // The storage of one account during a transaction, with the meter to charge.
  class StorageWriter {
    const original: map<nat, nat>
    var current: map<nat, nat>
    const meter: GasMeter

    constructor (slots: map<nat, nat>, gasMeter: GasMeter)
      ensures original == current == slots && meter == gasMeter
    {
      original, current, meter := slots, slots, gasMeter;
    }

    static function Slot(slots: map<nat, nat>, slot: nat): nat {
      if slot in slots then slots[slot] else 0
    }

    // net_sstore: the meter is charged and refunded what the write is worth,
    // and only that slot changes; out of gas, nothing does.
    method NetSStore(g: Schedule, slot: nat, value: nat) returns (failure: Option<Failure>)
      requires g.sload >= 0 && Reasonable(g) && meter.strategy == AllowNegative
      modifies this`current, meter
      ensures var p := WritePrice(g, Slot(original, slot), Slot(old(current), slot), value);
              if p.cost > old(meter.gasRemaining)
              then failure == Some(OutOfGas) && current == old(current)
                   && meter.gasRemaining == old(meter.gasRemaining) && meter.gasRefunded == old(meter.gasRefunded)
              else failure == None && current == old(current)[slot := value]
                   && meter.gasRemaining == old(meter.gasRemaining) - p.cost
                   && meter.gasRefunded == old(meter.gasRefunded) + p.refund
    {
      var currentValue := Slot(current, slot);
      var originalValue := Slot(original, slot);
      var refund := 0;
      var cost;
      if currentValue == value {
        cost := g.sload;
      } else if originalValue == currentValue {
        if originalValue == 0 {
          cost := g.set_;
        } else {
          cost := g.reset;
          if value == 0 {
            refund := refund + g.clears;
          }
        }
      } else {
        cost := g.sload;
        if originalValue != 0 {
          if currentValue == 0 {
            refund := refund - g.clears;
          }
          if value == 0 {
            refund := refund + g.clears;
          }
        }
        if originalValue == value {
          if originalValue == 0 {
            refund := refund + g.set_ - g.sload;
          } else {
            refund := refund + g.reset - g.sload;
          }
        }
      }
      failure := meter.ConsumeGas(cost);
      if failure.Some? {
        return;
      }
      if refund != 0 {
        failure := meter.RefundGas(refund);
      }
      current := current[slot := value];
    }

    // A transaction's writes to one slot, in order.
    method WriteAll(g: Schedule, slot: nat, values: seq<nat>) returns (failure: Option<Failure>)
      requires g.sload >= 0 && Reasonable(g) && meter.strategy == AllowNegative
      requires current == original && meter.gasRefunded == 0
      modifies this`current, meter
      ensures var o := Slot(original, slot);
              var charge := |values| * g.sload
                            + Departures(o, o, values) * ((if o == 0 then g.set_ else g.reset) - g.sload);
              && (failure == None <==> values == [] || charge <= old(meter.gasRemaining))
              && (failure == None ==>
                    && old(meter.gasRemaining) - meter.gasRemaining == charge
                    && charge - meter.gasRefunded == |values| * g.sload + Potential(g, o, FinalValue(o, values))
                    && meter.gasRefunded >= 0
                    && Slot(current, slot) == FinalValue(o, values)
                    && forall s: nat :: s != slot ==> Slot(current, s) == Slot(original, s))
    {
      failure := None;
      ghost var o := Slot(original, slot);
      CostCountsDepartures(g, o, values);
      for i := 0 to |values|
        invariant failure == None
        invariant Slot(current, slot) == FinalValue(o, values[..i])
        invariant forall s: nat :: s != slot ==> Slot(current, s) == Slot(original, s)
        invariant old(meter.gasRemaining) - meter.gasRemaining == Total(g, o, o, values[..i]).cost
        invariant meter.gasRefunded == Total(g, o, o, values[..i]).refund
        invariant meter.gasRemaining >= 0 || i == 0
      {
        assert Front(values[..i + 1]) == values[..i];
        failure := NetSStore(g, slot, values[i]);
        if failure.Some? {
          CostGrows(g, o, values, i + 1);
          return;
        }
      }
      assert values[..|values|] == values;
      NetGasTelescopes(g, o, values);
      RefundStaysNonNegative(g, o, values);
    }
  }
}
