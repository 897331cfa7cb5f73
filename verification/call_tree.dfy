// Gas over a tree of computations: veda/vm/logic/call.py, the creates of
// veda/vm/logic/system.py, and how veda/vm/computation.py ends a computation.
// A computation is given by what it does to its meter, so the opcode table is
// a parameter: any sequence of charges, calls and creates, and any ending.
module CallTrees {
  import opened Wrappers
  import opened GasMeters

  const GAS_CALLSTIPEND: nat := 2300
  const GAS_CALLVALUE: nat := 9000
  const GAS_NEWACCOUNT: nat := 25000

  // The gas rules of a call: before EIP-150, since EIP-150, and the two rules
  // for delegating calls, which carry no value.
  datatype Rule = Legacy | Eip150 | LegacyDelegate | Eip150Delegate

  datatype Step =
    | Charge(amount: nat)
    | Call(rule: Rule, gas: nat, hasValue: bool, newAccount: bool, failsCheck: bool, child: Run)
    | Create(eip150: bool, cost: nat, failsCheck: bool, collides: bool, child: Run, deposit: nat, rejectsCode: bool)

  // How a computation ends once its steps are done: it halts, it reverts (which
  // keeps its gas), or it fails with an error that burns it.
  datatype Ending = Halts | Reverts | Fails

  datatype Run = Run(steps: seq<Step>, ending: Ending)

  datatype Error = NoError | KeepsGas | BurnsGas

  // A finished computation: the gas it started with, what its meter holds and
  // how it ended.
  datatype Finished = Finished(start: nat, remaining: nat, error: Error)

  // get_gas_remaining and get_gas_used
  function GasRemaining(f: Finished): nat {
    if f.error == BurnsGas then 0 else f.remaining
  }

  function GasUsed(f: Finished): nat {
    if f.error == BurnsGas then f.start
    else if f.start < f.remaining then 0 else f.start - f.remaining
  }

  function MaxChildGas(gas: nat): (r: nat)
    ensures r <= gas
  {
    gas - gas / 64
  }

  datatype MessageGas = MessageGas(child: nat, fee: nat)

  function ExtraGas(rule: Rule, hasValue: bool, newAccount: bool): nat {
    if rule == LegacyDelegate || rule == Eip150Delegate then 0
    else (if hasValue then GAS_CALLVALUE else 0) + (if newAccount then GAS_NEWACCOUNT else 0)
  }

  function Stipend(rule: Rule, hasValue: bool): nat {
    if hasValue && (rule == Legacy || rule == Eip150) then GAS_CALLSTIPEND else 0
  }

  // compute_msg_gas; None when the remaining gas does not cover the extra gas.
  function ComputeMessageGas(rule: Rule, gas: nat, hasValue: bool, newAccount: bool, remaining: nat): Option<MessageGas> {
    var extra := ExtraGas(rule, hasValue, newAccount);
    match rule
    case Legacy => Some(MessageGas(gas + Stipend(rule, hasValue), gas + extra))
    case LegacyDelegate => Some(MessageGas(gas, gas))
    case _ =>
      if remaining < extra then None
      else
        var most := MaxChildGas(remaining - extra);
        var given := if gas < most then gas else most;
        Some(MessageGas(given + Stipend(rule, hasValue), given + extra))
  }

  // What a step leaves on the meter, or None when it runs out of gas.
  function StepGas(s: Step, remaining: nat): (left: Option<nat>)
    decreases s, 0
  {
    match s
    case Charge(amount) => if amount > remaining then None else Some(remaining - amount)
    case Call(rule, gas, hasValue, newAccount, failsCheck, child) =>
      var m := ComputeMessageGas(rule, gas, hasValue, newAccount, remaining);
      if m.None? || m.value.fee > remaining then None
      else if failsCheck then Some(remaining - m.value.fee + m.value.child)
      else
        var f := Apply(child, m.value.child);
        Some(remaining - m.value.fee + if f.error == BurnsGas then 0 else GasRemaining(f))
    case Create(eip150, cost, failsCheck, collides, child, deposit, rejectsCode) =>
      if cost > remaining then None
      else if failsCheck then Some(remaining - cost)
      else
        var given := if eip150 then MaxChildGas(remaining - cost) else remaining - cost;
        if collides then Some(remaining - cost - given)
        else Some(remaining - cost - given + GasRemaining(Deposit(Apply(child, given), deposit, rejectsCode)))
  }

  // apply_create_message after the code ran: the deposit is charged, and code
  // that is rejected or not paid for is an error that burns the gas.
  function Deposit(f: Finished, deposit: nat, rejectsCode: bool): Finished {
    if f.error != NoError then f
    else if rejectsCode || deposit > f.remaining then f.(error := BurnsGas)
    else f.(remaining := f.remaining - deposit)
  }

  function StepsGas(steps: seq<Step>, remaining: nat): Option<nat>
    decreases steps, 0
  {
    if steps == [] then Some(remaining)
    else
      var left := StepGas(steps[0], remaining);
      if left.None? then None else StepsGas(steps[1..], left.value)
  }

  // apply_computation with __exit__: an error that burns gas empties the meter.
  function Apply(run: Run, start: nat): Finished
    decreases run, 1
  {
    var left := StepsGas(run.steps, start);
    if left.None? || run.ending == Fails then Finished(start, 0, BurnsGas)
    else Finished(start, left.value, if run.ending == Reverts then KeepsGas else NoError)
  }

  //
  // Conservation
  //

  lemma StipendCovered(rule: Rule, gas: nat, hasValue: bool, newAccount: bool, remaining: nat)
    ensures var m := ComputeMessageGas(rule, gas, hasValue, newAccount, remaining);
            m.Some? ==> m.value.child <= m.value.fee && m.value.fee - m.value.child ==
                        ExtraGas(rule, hasValue, newAccount) - Stipend(rule, hasValue)
  {}

  // Under EIP-150 the gas asked for is given as far as 63/64 of what is left
  // after the extra gas allow; the stipend of a value transfer comes on top.
  lemma MessageGasGiven(rule: Rule, gas: nat, hasValue: bool, newAccount: bool, remaining: nat)
    requires rule == Eip150 || rule == Eip150Delegate
    ensures var extra := if rule == Eip150Delegate then 0
                         else (if hasValue then 9000 else 0) + (if newAccount then 25000 else 0);
            var stipend := if rule == Eip150 && hasValue then 2300 else 0;
            var m := ComputeMessageGas(rule, gas, hasValue, newAccount, remaining);
            && (m.None? <==> remaining < extra)
            && (m.Some? ==>
                  && m.value.fee >= extra
                  && var given := m.value.fee - extra;
                     && m.value.child == given + stipend
                     && given <= gas && 64 * given <= 63 * (remaining - extra) + 63
                     && (given < gas ==> 64 * given >= 63 * (remaining - extra)))
  {}

  // Before EIP-150 all the gas asked for is given.
  lemma LegacyGasGiven(rule: Rule, gas: nat, hasValue: bool, newAccount: bool, remaining: nat)
    requires rule == Legacy || rule == LegacyDelegate
    ensures ComputeMessageGas(rule, gas, hasValue, newAccount, remaining) == Some(
              if rule == LegacyDelegate then MessageGas(gas, gas)
              else MessageGas(
                gas + if hasValue then 2300 else 0,
                gas + (if hasValue then 9000 else 0) + if newAccount then 25000 else 0))
  {}

  // A caller pays for the value and the new account, less the stipend, and for
  // what the child used; nothing more when the call failed its checks.
  lemma CallerPays(rule: Rule, gas: nat, hasValue: bool, newAccount: bool, failsCheck: bool, child: Run, remaining: nat)
    ensures var m := ComputeMessageGas(rule, gas, hasValue, newAccount, remaining);
            var left := StepGas(Call(rule, gas, hasValue, newAccount, failsCheck, child), remaining);
            && (left.None? <==> m.None? || m.value.fee > remaining)
            && (left.Some? ==>
                  left.value == remaining - (m.value.fee - m.value.child)
                                - if failsCheck then 0 else GasUsed(Apply(child, m.value.child)))
  {
    hide Apply;
    var m := ComputeMessageGas(rule, gas, hasValue, newAccount, remaining);
    if m.Some? {
      NeverGains(child, m.value.child);
    }
  }

  // A creator pays the cost of the create and what the child used; a collision
  // uses all the gas that was forwarded.
  lemma CreatorPays(eip150: bool, cost: nat, failsCheck: bool, collides: bool, child: Run, deposit: nat, rejectsCode: bool,
                    remaining: nat) returns (given: nat)
    ensures var left := StepGas(Create(eip150, cost, failsCheck, collides, child, deposit, rejectsCode), remaining);
            && (left.None? <==> cost > remaining)
            && (left.Some? ==>
                  && (if eip150 then 63 * (remaining - cost) <= 64 * given <= 63 * (remaining - cost) + 63
                      else given == remaining - cost)
                  && left.value == remaining - cost
                                   - if failsCheck then 0 else if collides then given
                                     else GasUsed(Deposit(Apply(child, given), deposit, rejectsCode)))
  {
    given := if cost > remaining then 0 else if eip150 then MaxChildGas(remaining - cost) else remaining - cost;
    hide Apply, Deposit;
    CreateNeverGains(child, given, deposit, rejectsCode);
    DepositLeaves(Apply(child, given), deposit, rejectsCode);
  }

  // Only code that ran to its end pays a deposit; it loses everything when it
  // cannot, or when the code is refused.
  lemma DepositPaid(f: Finished, deposit: nat, rejectsCode: bool)
    requires f.remaining <= f.start
    ensures var d := Deposit(f, deposit, rejectsCode);
            && (f.error != NoError ==> d == f)
            && (f.error == NoError && !rejectsCode && deposit <= f.remaining ==>
                  d.error == NoError && GasUsed(d) == GasUsed(f) + deposit)
            && (f.error == NoError && (rejectsCode || deposit > f.remaining) ==>
                  d.error == BurnsGas && GasUsed(d) == f.start)
  {}

  lemma DepositLeaves(f: Finished, deposit: nat, rejectsCode: bool)
    ensures Deposit(f, deposit, rejectsCode).start == f.start
  {}

  function Charges(amounts: seq<nat>): seq<Step> {
    seq(|amounts|, i requires 0 <= i < |amounts| => Charge(amounts[i]))
  }

  function SumOf(amounts: seq<nat>): nat {
    if amounts == [] then 0 else amounts[0] + SumOf(amounts[1..])
  }

  // A computation without children uses the sum of its charges, or everything
  // when it fails or that is not there.
  lemma {:induction false} ChargesAddUp(amounts: seq<nat>, start: nat)
    ensures StepsGas(Charges(amounts), start) == if SumOf(amounts) <= start then Some(start - SumOf(amounts)) else None
  {
    if amounts != [] {
      assert Charges(amounts)[0] == Charge(amounts[0]) && Charges(amounts)[1..] == Charges(amounts[1..]);
      if amounts[0] <= start {
        ChargesAddUp(amounts[1..], start - amounts[0]);
      }
    }
  }

  lemma UsesItsCharges(amounts: seq<nat>, ending: Ending, start: nat)
    ensures GasUsed(Apply(Run(Charges(amounts), ending), start)) ==
            if ending != Fails && SumOf(amounts) <= start then SumOf(amounts) else start
  {
    ChargesAddUp(amounts, start);
  }

  // No step and no computation of any tree ends with more gas than it had.
  lemma {:induction false} StepNeverGains(s: Step, remaining: nat)
    ensures StepGas(s, remaining).Some? ==> StepGas(s, remaining).value <= remaining
    decreases s, 0
  {
    match s
    case Charge(_) =>
    case Call(rule, gas, hasValue, newAccount, failsCheck, child) =>
      var m := ComputeMessageGas(rule, gas, hasValue, newAccount, remaining);
      StipendCovered(rule, gas, hasValue, newAccount, remaining);
      if m.Some? {
        NeverGains(child, m.value.child);
      }
    case Create(eip150, cost, failsCheck, collides, child, deposit, rejectsCode) =>
      if cost <= remaining {
        NeverGains(child, if eip150 then MaxChildGas(remaining - cost) else remaining - cost);
      }
  }

  lemma {:induction false} StepsNeverGain(steps: seq<Step>, remaining: nat)
    ensures StepsGas(steps, remaining).Some? ==> StepsGas(steps, remaining).value <= remaining
    decreases steps, 0
  {
    if steps != [] {
      StepNeverGains(steps[0], remaining);
      if StepGas(steps[0], remaining).Some? {
        StepsNeverGain(steps[1..], StepGas(steps[0], remaining).value);
      }
    }
  }

  // The meter of a finished computation, and used plus remaining equals start.
  lemma {:induction false} NeverGains(run: Run, start: nat)
    ensures var f := Apply(run, start);
            && f.remaining <= f.start == start && GasUsed(f) + GasRemaining(f) == start
            && (f.error == BurnsGas ==> GasUsed(f) == start && f.remaining == 0)
    decreases run, 1
  {
    StepsNeverGain(run.steps, start);
  }

  // The same once the code of a create has been paid for.
  lemma CreateNeverGains(run: Run, start: nat, deposit: nat, rejectsCode: bool)
    ensures var f := Deposit(Apply(run, start), deposit, rejectsCode);
            f.remaining <= start && GasUsed(f) + GasRemaining(f) == start
  {
    NeverGains(run, start);
  }

  //
  // Where the gas went
  //

  // The gas paid for good in a tree (charges, extra fees, deposits, and what
  // errors and collisions burn), and the stipends handed out in it.
  datatype Ledger = Ledger(paid: nat, stipends: nat)

  function Plus(a: Ledger, b: Ledger): Ledger {
    Ledger(a.paid + b.paid, a.stipends + b.stipends)
  }

  function StepLedger(s: Step, remaining: nat): Ledger
    decreases s, 0
  {
    match s
    case Charge(amount) => if amount > remaining then Ledger(0, 0) else Ledger(amount, 0)
    case Call(rule, gas, hasValue, newAccount, failsCheck, child) =>
      var m := ComputeMessageGas(rule, gas, hasValue, newAccount, remaining);
      if m.None? || m.value.fee > remaining then Ledger(0, 0)
      else
        Plus(Ledger(ExtraGas(rule, hasValue, newAccount), Stipend(rule, hasValue)),
             if failsCheck then Ledger(0, 0) else RunLedger(child, m.value.child))
    case Create(eip150, cost, failsCheck, collides, child, deposit, rejectsCode) =>
      if cost > remaining then Ledger(0, 0)
      else if failsCheck then Ledger(cost, 0)
      else
        var given := if eip150 then MaxChildGas(remaining - cost) else remaining - cost;
        if collides then Ledger(cost + given, 0)
        else
          var f := Apply(child, given);
          Plus(Ledger(cost, 0), Plus(RunLedger(child, given), DepositLedger(f, deposit, rejectsCode)))
  }

  function DepositLedger(f: Finished, deposit: nat, rejectsCode: bool): Ledger {
    if f.error != NoError then Ledger(0, 0)
    else if rejectsCode || deposit > f.remaining then Ledger(f.remaining, 0)
    else Ledger(deposit, 0)
  }

  function StepsLedger(steps: seq<Step>, remaining: nat): Ledger
    decreases steps, 0
  {
    if steps == [] then Ledger(0, 0)
    else
      var left := StepGas(steps[0], remaining);
      if left.None? then Ledger(remaining, 0)
      else Plus(StepLedger(steps[0], remaining), StepsLedger(steps[1..], left.value))
  }

  // A computation that fails burns what its steps left over.
  function RunLedger(run: Run, start: nat): Ledger
    decreases run, 1
  {
    var left := StepsGas(run.steps, start);
    var l := StepsLedger(run.steps, start);
    if left.Some? && run.ending == Fails then Plus(l, Ledger(left.value, 0)) else l
  }

  lemma {:induction false} StepConserves(s: Step, remaining: nat)
    requires StepGas(s, remaining).Some?
    ensures var l := StepLedger(s, remaining);
            remaining + l.stipends == StepGas(s, remaining).value + l.paid
    decreases s, 0
  {
    hide MaxChildGas, ComputeMessageGas, ExtraGas, Stipend, Apply, RunLedger;
    match s
    case Charge(_) =>
    case Call(rule, gas, hasValue, newAccount, failsCheck, child) =>
      var m := ComputeMessageGas(rule, gas, hasValue, newAccount, remaining);
      StipendCovered(rule, gas, hasValue, newAccount, remaining);
      if !failsCheck {
        GasIsConserved(child, m.value.child);
      }
    case Create(eip150, cost, failsCheck, collides, child, deposit, rejectsCode) =>
      var given := if eip150 then MaxChildGas(remaining - cost) else remaining - cost;
      if !failsCheck && !collides {
        GasIsConserved(child, given);
      }
  }

  lemma {:induction false} StepsConserve(steps: seq<Step>, remaining: nat)
    ensures var l := StepsLedger(steps, remaining);
            remaining + l.stipends == (if StepsGas(steps, remaining).Some? then StepsGas(steps, remaining).value else 0) + l.paid
    decreases steps, 0
  {
    if steps != [] && StepGas(steps[0], remaining).Some? {
      StepConserves(steps[0], remaining);
      StepsConserve(steps[1..], StepGas(steps[0], remaining).value);
    }
  }

  // Over a whole tree: what it started with, plus the stipends handed out in
  // it, is what remains plus what was paid somewhere in it.
  lemma {:induction false} GasIsConserved(run: Run, start: nat)
    ensures var l := RunLedger(run, start);
            start + l.stipends == GasRemaining(Apply(run, start)) + l.paid
    decreases run, 1
  {
    StepsConserve(run.steps, start);
  }

  //
  // On meters
  //

  // A computation with its meter; children get meters of their own.
  class Computation {
    const meter: GasMeter
    var error: Error

    constructor (gas: nat)
      requires gas <= UINT_256_MAX
      ensures fresh(meter) && meter.startGas == meter.gasRemaining == gas && error == NoError
    {
      meter := new GasMeter(gas, AllowNegative);
      error := NoError;
    }

    ghost predicate Ended(f: Finished)
      reads this, meter
    {
      meter.startGas == f.start && meter.gasRemaining == f.remaining && error == f.error
    }

    method GetGasRemaining() returns (gas: int)
      ensures forall f :: Ended(f) ==> gas == GasRemaining(f)
    {
      return if error == BurnsGas then 0 else meter.gasRemaining;
    }

    method GetGasUsed() returns (gas: int)
      ensures forall f :: Ended(f) ==> gas == GasUsed(f)
    {
      if error == BurnsGas {
        return meter.startGas;
      }
      var used := meter.startGas - meter.gasRemaining;
      return if used < 0 then 0 else used;
    }

    // BaseCall.__call__, from the message gas on.
    method CallOp(s: Step) returns (ok: bool)
      requires s.Call? && 0 <= meter.gasRemaining <= UINT_256_MAX
      modifies meter
      ensures ok <==> StepGas(s, old(meter.gasRemaining)).Some?
      ensures ok ==> meter.gasRemaining == StepGas(s, old(meter.gasRemaining)).value
      ensures !ok ==> meter.gasRemaining == old(meter.gasRemaining)
      decreases s, 0
    {
      hide MaxChildGas, ExtraGas, Apply;
      var remaining := meter.gasRemaining;
      var m := ComputeMessageGas(s.rule, s.gas, s.hasValue, s.newAccount, remaining);
      if m.None? {
        return false;
      }
      var charged := meter.ConsumeGas(m.value.fee);
      if charged.Some? {
        return false;
      }
      StipendCovered(s.rule, s.gas, s.hasValue, s.newAccount, remaining);
      if s.failsCheck {
        var _ := meter.ReturnGas(m.value.child);
      } else {
        var child := new Computation(m.value.child);
        child.ApplyComputation(s.child);
        assert child.Ended(Apply(s.child, m.value.child));
        if child.error != BurnsGas {
          var left := child.GetGasRemaining();
          var _ := meter.ReturnGas(left);
        }
      }
      return true;
    }

    // Create.__call__ with apply_create_message.
    method CreateOp(s: Step) returns (ok: bool)
      requires s.Create? && 0 <= meter.gasRemaining <= UINT_256_MAX
      modifies meter
      ensures ok <==> StepGas(s, old(meter.gasRemaining)).Some?
      ensures ok ==> meter.gasRemaining == StepGas(s, old(meter.gasRemaining)).value
      ensures !ok ==> meter.gasRemaining == old(meter.gasRemaining)
      decreases s, 0
    {
      hide MaxChildGas, Apply;
      var charged := meter.ConsumeGas(s.cost);
      if charged.Some? {
        return false;
      }
      if s.failsCheck {
        return true;
      }
      var given: nat := if s.eip150 then MaxChildGas(meter.gasRemaining) else meter.gasRemaining;
      charged := meter.ConsumeGas(given);
      if s.collides {
        return true;
      }
      var child := new Computation(given);
      child.ApplyComputation(s.child);
      ghost var f := Apply(s.child, given);
      if child.error == NoError {
        if s.rejectsCode {
          child.error := BurnsGas;
        } else {
          var unpaid := child.meter.ConsumeGas(s.deposit);
          if unpaid.Some? {
            child.error := BurnsGas;
          }
        }
      }
      assert child.Ended(Deposit(f, s.deposit, s.rejectsCode));
      var left := child.GetGasRemaining();
      var _ := meter.ReturnGas(left);
      return true;
    }

    // apply_computation on a new computation, with __exit__ at the end.
    method ApplyComputation(run: Run)
      requires 0 <= meter.gasRemaining == meter.startGas <= UINT_256_MAX && error == NoError
      modifies this, meter
      ensures Ended(Apply(run, meter.startGas))
      decreases run, 1
    {
      var i := 0;
      while i < |run.steps| && error == NoError
        invariant 0 <= i <= |run.steps| && 0 <= meter.gasRemaining <= meter.startGas && error in {NoError, BurnsGas}
        invariant StepsGas(run.steps, meter.startGas) ==
                  if error == NoError then StepsGas(run.steps[i..], meter.gasRemaining) else None
        decreases |run.steps| - i
      {
        var s := run.steps[i];
        assert run.steps[i..][0] == s && run.steps[i..][1..] == run.steps[i + 1..];
        StepNeverGains(s, meter.gasRemaining);
        var ok;
        if s.Charge? {
          var failure := meter.ConsumeGas(s.amount);
          ok := failure.None?;
        } else if s.Call? {
          ok := CallOp(s);
        } else {
          ok := CreateOp(s);
        }
        if !ok {
          error := BurnsGas;
        }
        i := i + 1;
      }
      if run.ending == Fails {
        error := BurnsGas;
      } else if run.ending == Reverts && error == NoError {
        error := KeepsGas;
      }
      if error == BurnsGas {
        var _ := meter.ConsumeGas(meter.gasRemaining);
      }
    }
  }

  //
  // EIP-150
  //

  // The computed fee is never more than there is.
  lemma FeeIsAffordable(rule: Rule, gas: nat, hasValue: bool, newAccount: bool, remaining: nat)
    requires rule == Eip150 || rule == Eip150Delegate
    ensures var m := ComputeMessageGas(rule, gas, hasValue, newAccount, remaining);
            if remaining < ExtraGas(rule, hasValue, newAccount) then m == None
            else m.Some? && m.value.fee <= remaining
  {}

  // The gas of the message reached by following the calls at the given step
  // numbers, if they are value-free calls under EIP-150 that are reached.
  function InnerGas(run: Run, start: nat, path: seq<nat>): Option<nat>
    decreases |path|
  {
    if path == [] then Some(start)
    else if path[0] >= |run.steps| then None
    else
      var left := StepsGas(run.steps[..path[0]], start);
      var s := run.steps[path[0]];
      if left.None? || !s.Call? || s.hasValue || s.failsCheck || !(s.rule == Eip150 || s.rule == Eip150Delegate) then None
      else
        var m := ComputeMessageGas(s.rule, s.gas, false, s.newAccount, left.value);
        if m.None? || m.value.fee > left.value then None else InnerGas(s.child, m.value.child, path[1..])
  }

  function Pow(b: nat, e: nat): nat {
    if e == 0 then 1 else b * Pow(b, e - 1)
  }

  lemma ChildGasShrinks(gas: nat, g: nat)
    requires g <= MaxChildGas(gas)
    ensures 64 * (g - 63) <= 63 * (gas - 63)
  {}

  lemma Scale(a: int, b: int, k: nat)
    requires a <= b
    ensures k * a <= k * b
  {
    assert k * b == k * a + k * (b - a);
  }

  // The bound on the gas g at depth d below a computation started with start.
  predicate Bounded(d: nat, g: nat, start: nat) {
    Pow(64, d) * (g - 63) <= Pow(63, d) * (start - 63)
  }

  // Each level of nesting leaves at most 63/64 of the gas, up to rounding.
  lemma {:induction false} DepthBound(run: Run, start: nat, path: seq<nat>)
    ensures var inner := InnerGas(run, start, path);
            inner.Some? ==> Bounded(|path|, inner.value, start)
    decreases |path|
  {
    hide Bounded, StepsGas, MaxChildGas;
    var inner := InnerGas(run, start, path);
    if path == [] {
      NotNested(start);
    } else if inner.Some? {
      var left := StepsGas(run.steps[..path[0]], start).value;
      var s := run.steps[path[0]];
      var m := ComputeMessageGas(s.rule, s.gas, false, s.newAccount, left).value;
      StepsNeverGain(run.steps[..path[0]], start);
      DepthBound(s.child, m.child, path[1..]);
      MostGiven(left, ExtraGas(s.rule, false, s.newAccount));
      OneLevel(|path| - 1, inner.value, m.child, left, start);
    }
  }

  lemma NotNested(start: nat)
    ensures Bounded(0, start, start)
  {}

  lemma MostGiven(left: nat, extra: nat)
    requires extra <= left
    ensures MaxChildGas(left - extra) <= MaxChildGas(left)
  {}

  lemma OneLevel(d: nat, inner: nat, g: nat, left: nat, start: nat)
    requires Bounded(d, inner, g)
    requires g <= MaxChildGas(left) && left <= start
    ensures Bounded(d + 1, inner, start)
  {
    ChildGasShrinks(left, g);
    var p, q, x := Pow(64, d), Pow(63, d), g - 63;
    Scale(64 * x, 63 * (start - 63), q);
    Scale(p * (inner - 63), q * x, 64);
    Regroup(64, p, inner - 63);
    Regroup(64, q, x);
    Regroup(63, q, start - 63);
  }

  lemma Regroup(a: int, b: int, c: int)
    ensures (a * b) * c == a * (b * c) == b * (a * c)
  {}
}
