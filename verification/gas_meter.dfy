// veda/vm/gas_meter.py: the gas a computation has left, and its refund counter.
module GasMeters {
  import opened Wrappers

  const UINT_256_MAX: nat := 0x1_0000_0000_0000_0000_0000_0000_0000_0000_0000_0000_0000_0000_0000_0000_0000_0000 - 1

  datatype Failure = OutOfGas | NegativeAmount

  datatype RefundStrategy = Default | AllowNegative

  class GasMeter {
    const startGas: nat
    const strategy: RefundStrategy
    var gasRemaining: int
    var gasRefunded: int

    constructor (gas: nat, refundStrategy: RefundStrategy)
      requires gas <= UINT_256_MAX
      ensures startGas == gas == gasRemaining && gasRefunded == 0 && strategy == refundStrategy
    {
      startGas, strategy, gasRemaining, gasRefunded := gas, refundStrategy, gas, 0;
    }

    method ConsumeGas(amount: int) returns (failure: Option<Failure>)
      modifies this`gasRemaining
      ensures failure == if amount < 0 then Some(NegativeAmount)
                         else if amount > old(gasRemaining) then Some(OutOfGas) else None
      ensures gasRemaining == if failure == None then old(gasRemaining) - amount else old(gasRemaining)
    {
      if amount < 0 {
        return Some(NegativeAmount);
      }
      if amount > gasRemaining {
        return Some(OutOfGas);
      }
      gasRemaining := gasRemaining - amount;
      return None;
    }

    method ReturnGas(amount: int) returns (failure: Option<Failure>)
      modifies this`gasRemaining
      ensures failure == if amount < 0 then Some(NegativeAmount) else None
      ensures gasRemaining == if amount < 0 then old(gasRemaining) else old(gasRemaining) + amount
    {
      if amount < 0 {
        return Some(NegativeAmount);
      }
      gasRemaining := gasRemaining + amount;
      return None;
    }

    // Only the default strategy refuses a negative amount.
    method RefundGas(amount: int) returns (failure: Option<Failure>)
      modifies this`gasRefunded
      ensures failure == if strategy == Default && amount < 0 then Some(NegativeAmount) else None
      ensures gasRefunded == if failure == None then old(gasRefunded) + amount else old(gasRefunded)
    {
      if strategy == Default && amount < 0 {
        return Some(NegativeAmount);
      }
      gasRefunded := gasRefunded + amount;
      return None;
    }
  }
}
