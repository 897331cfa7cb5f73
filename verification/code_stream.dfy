// veda/vm/code_stream.py with jump, jumpi and push_XX: which bytes of a code
// are instructions and which are push data.
module CodeStreams {
  import opened Wrappers

  newtype Byte = x: int | 0 <= x < 256

  const STOP: Byte := 0x00
  const JUMP: Byte := 0x56
  const JUMPI: Byte := 0x57
  const JUMPDEST: Byte := 0x5B
  const PUSH1: Byte := 0x60
  const PUSH32: Byte := 0x7F

  datatype Failure = InvalidJumpDestination | InvalidInstruction

  //
  // The forward scan
  //

  // The number of data bytes that follow an opcode.
  function PushSize(opcode: Byte): (n: nat)
    ensures n <= 32
  {
    if PUSH1 <= opcode <= PUSH32 then (opcode - PUSH1) as int + 1 else 0
  }

  function NextStart(code: seq<Byte>, p: nat): (n: nat)
    requires p < |code|
    ensures n > p
  {
    p + 1 + PushSize(code[p])
  }

  // Does the scan that starts at from and skips push data arrive at p?
  predicate Arrives(code: seq<Byte>, from: nat, p: nat)
    decreases p - from
  {
    from == p || (from < p && from < |code| && Arrives(code, NextStart(code, from), p))
  }

  // The positions of instructions: inside the code, and arrived at from 0.
  predicate IsStart(code: seq<Byte>, p: nat) {
    p < |code| && Arrives(code, 0, p)
  }

  lemma {:induction false} NoStartInData(code: seq<Byte>, from: nat, q: nat, p: nat)
    requires Arrives(code, from, q) && Arrives(code, from, p) && q < p && q < |code|
    ensures NextStart(code, q) <= p
    decreases q - from
  {
    if from < q {
      NoStartInData(code, NextStart(code, from), q, p);
    }
  }

  // A position that the scan misses lies in the data of a position it finds.
  lemma {:induction false} MissedIsData(code: seq<Byte>, from: nat, p: nat) returns (q: nat)
    requires from <= p < |code| && !Arrives(code, from, p)
    ensures from <= q < p < NextStart(code, q) && Arrives(code, from, q)
    decreases p - from
  {
    var next := NextStart(code, from);
    if next > p {
      q := from;
    } else {
      q := MissedIsData(code, next, p);
    }
  }

  // A position is an instruction just when no earlier instruction pushes it.
  lemma StartIffNotPushed(code: seq<Byte>, p: nat)
    requires p < |code|
    ensures IsStart(code, p) <==> forall q: nat :: q < p && IsStart(code, q) ==> !Pushes(code, q, p)
  {
    if IsStart(code, p) {
      forall q: nat | q < p && IsStart(code, q) ensures !Pushes(code, q, p) {
        NoStartInData(code, 0, q, p);
      }
    } else {
      var q := MissedIsData(code, 0, p);
      assert IsStart(code, q) && Pushes(code, q, p);
    }
  }

  predicate Pushes(code: seq<Byte>, q: nat, p: nat) {
    q < |code| && q < p <= q + PushSize(code[q])
  }

  lemma {:induction false} ArrivesOn(code: seq<Byte>, from: nat, p: nat)
    requires Arrives(code, from, p) && p < |code|
    ensures Arrives(code, from, NextStart(code, p))
    decreases p - from
  {
    if from < p {
      ArrivesOn(code, NextStart(code, from), p);
    }
  }

  // The program counter of a run: at an instruction, or past the code.
  predicate AtInstruction(code: seq<Byte>, pc: nat) {
    pc >= |code| || IsStart(code, pc)
  }

  // A valid jump destination: a JUMPDEST that is an instruction.
  predicate IsDestination(code: seq<Byte>, p: nat) {
    IsStart(code, p) && code[p] == JUMPDEST
  }

  // The two topmost stack items when an instruction is fetched, the topmost
  // first; a jump takes only that one.
  datatype Operands = Operands(top: nat, below: nat)

  // Does the instruction at pc jump?
  predicate Jumps(code: seq<Byte>, pc: nat, o: Operands) {
    pc < |code| && (code[pc] == JUMP || (code[pc] == JUMPI && o.below != 0))
  }

  // One round from pc to pc': a jump goes to the top of the stack, which has to
  // be a valid destination; any other instruction is followed by the next one.
  predicate Round(code: seq<Byte>, pc: nat, o: Operands, pc': nat) {
    && pc < |code|
    && if Jumps(code, pc, o) then pc' == o.top && IsDestination(code, pc') else pc' == NextStart(code, pc)
  }

  // pcs are the positions fetched from, one round after the other.
  ghost predicate Rounds(code: seq<Byte>, operands: seq<Operands>, pcs: seq<nat>) {
    && |pcs| <= |operands| && (pcs != [] ==> pcs[0] == 0 < |code|)
    && forall k, m :: 0 <= k < m < |pcs| && m == k + 1 ==> Round(code, pcs[k], operands[k], pcs[m]) && pcs[m] < |code|
  }

  // How the fetch loop ends: the last round went to pc, which is past the code
  // unless the operands ran out; or the last round was a jump to pc that failed.
  ghost predicate Ends(code: seq<Byte>, operands: seq<Operands>, pcs: seq<nat>, error: Option<Failure>, pc: nat)
    requires |pcs| <= |operands|
  {
    match error
    case None =>
      && (if pcs == [] then pc == 0 else Round(code, Last(pcs), operands[|pcs| - 1], pc))
      && (|pcs| == |operands| || pc >= |code|)
    case Some(failure) => pcs != [] && FailsAt(code, Last(pcs), operands[|pcs| - 1], failure, pc)
  }

  // A jump that lands nowhere valid, and whether that is push data.
  predicate FailsAt(code: seq<Byte>, pc: nat, o: Operands, failure: Failure, pc': nat) {
    && Jumps(code, pc, o) && pc' == o.top && !IsDestination(code, pc')
    && failure == if pc' < |code| && code[pc'] == JUMPDEST then InvalidInstruction else InvalidJumpDestination
  }

  class CodeStream {
    const code: seq<Byte>
    var programCounter: nat
    var invalidPositions: set<nat>
    var validPositions: set<nat>

    // Both memo sets are right.
    ghost predicate Valid()
      reads this
    {
      && (forall p :: p in validPositions ==> IsStart(code, p))
      && (forall p :: p in invalidPositions ==> p < |code| && !IsStart(code, p))
    }

    constructor (codeBytes: seq<Byte>)
      ensures Valid() && code == codeBytes && programCounter == 0
    {
      code, programCounter := codeBytes, 0;
      invalidPositions, validPositions := {}, {};
    }

    // Up to 32 bytes back, the positions whose opcode would push position.
    method PotentiallyDisqualifyingOpcodePositions(position: nat) returns (found: seq<nat>)
      requires position < |code|
      ensures forall q :: q in found <==> Pushes(code, q, position)
      ensures forall i, j :: 0 <= i < j < |found| ==> found[i] < found[j]
    {
      found := [];
      var bytesBack := if position < 32 then position else 32;
      while bytesBack > 0
        invariant 0 <= bytesBack <= position
        invariant forall q: nat :: q in found <==> q < position - bytesBack && Pushes(code, q, position)
        invariant forall i :: 0 <= i < |found| ==> found[i] < position - bytesBack
        invariant forall i, j :: 0 <= i < j < |found| ==> found[i] < found[j]
      {
        var earlier := position - bytesBack;
        var opcode := code[earlier] as int;
        if PUSH1 as int + (bytesBack - 1) <= opcode <= PUSH32 as int {
          found := found + [earlier];
        }
        bytesBack := bytesBack - 1;
      }
    }

    // The backward search agrees with the forward scan, whatever was asked
    // before, and remembers only right answers.
    method IsValidOpcode(position: nat) returns (b: bool)
      requires Valid()
      modifies this`invalidPositions, this`validPositions
      ensures Valid()
      ensures b <==> IsStart(code, position)
      ensures old(validPositions) <= validPositions && old(invalidPositions) <= invalidPositions
      decreases position
    {
      if position >= |code| {
        return false;
      } else if position in invalidPositions {
        return false;
      } else if position in validPositions {
        return true;
      }
      var disqualifiers := PotentiallyDisqualifyingOpcodePositions(position);
      StartIffNotPushed(code, position);
      for i := 0 to |disqualifiers|
        invariant Valid()
        invariant forall k :: 0 <= k < i ==> !IsStart(code, disqualifiers[k])
        invariant old(validPositions) <= validPositions && old(invalidPositions) <= invalidPositions
      {
        assert disqualifiers[i] in disqualifiers;
        var pushed := IsValidOpcode(disqualifiers[i]);
        if pushed {
          assert Pushes(code, disqualifiers[i], position);
          invalidPositions := invalidPositions + {position};
          return false;
        }
      }
      forall q: nat | q < position && IsStart(code, q) ensures !Pushes(code, q, position) {
        assert q !in disqualifiers;
      }
      validPositions := validPositions + {position};
      return true;
    }

    // One step of iterating over the code: STOP once the counter is past it.
    method Next() returns (opcode: Byte)
      modifies this`programCounter
      ensures old(programCounter) < |code| ==>
                opcode == code[old(programCounter)] && programCounter == old(programCounter) + 1
      ensures old(programCounter) >= |code| ==> opcode == STOP && programCounter == old(programCounter)
    {
      var pc := programCounter;
      if pc < |code| {
        opcode := code[pc];
        programCounter := pc + 1;
      } else {
        opcode := STOP;
      }
    }

    // The bytes from the counter on, as many as the code still has; the counter
    // moves by size all the same.
    method Read(size: nat) returns (bytes: seq<Byte>)
      modifies this`programCounter
      ensures programCounter == old(programCounter) + size
      ensures |bytes| == if old(programCounter) + size <= |code| then size
                         else if old(programCounter) <= |code| then |code| - old(programCounter) else 0
      ensures forall i :: 0 <= i < |bytes| ==> bytes[i] == code[old(programCounter) + i]
    {
      var start := if programCounter <= |code| then programCounter else |code|;
      var end := if programCounter + size <= |code| then programCounter + size else |code|;
      programCounter := programCounter + size;
      bytes := code[start..end];
    }

    function Peek(): Byte
      reads this
    {
      if programCounter < |code| then code[programCounter] else STOP
    }

    // push_XX: the value read, padded with zeros on the right to size bytes.
    method Push(size: nat) returns (value: seq<Byte>)
      modifies this`programCounter
      ensures programCounter == old(programCounter) + size && |value| == size
      ensures forall i :: 0 <= i < size ==>
                value[i] == if old(programCounter) + i < |code| then code[old(programCounter) + i] else 0
    {
      value := Read(size);
      var given := value;
      var padding := seq(size - |given|, _ => 0 as Byte);
      value := given + padding;
      assert forall i :: 0 <= i < size ==> value[i] == if i < |given| then given[i] else padding[i - |given|];
    }

    // jump succeeds just when it lands on a JUMPDEST that is an instruction.
    method Jump(destination: nat) returns (error: Option<Failure>)
      requires Valid()
      modifies this`programCounter, this`invalidPositions, this`validPositions
      ensures Valid() && programCounter == destination
      ensures error == None <==> IsDestination(code, destination)
      ensures error == Some(InvalidJumpDestination) <==> destination >= |code| || code[destination] != JUMPDEST
    {
      programCounter := destination;
      if Peek() != JUMPDEST {
        return Some(InvalidJumpDestination);
      }
      var valid := IsValidOpcode(destination);
      return if valid then None else Some(InvalidInstruction);
    }

    method JumpIf(destination: nat, check: nat) returns (error: Option<Failure>)
      requires Valid()
      modifies this`programCounter, this`invalidPositions, this`validPositions
      ensures Valid() && programCounter == if check != 0 then destination else old(programCounter)
      ensures error == None <==> check == 0 || IsDestination(code, destination)
      ensures error == Some(InvalidJumpDestination) <==>
                check != 0 && (destination >= |code| || code[destination] != JUMPDEST)
    {
      error := None;
      if check != 0 {
        error := Jump(destination);
      }
    }

    // One round of the fetch loop, at an instruction.
    method ExecuteOne(o: Operands) returns (error: Option<Failure>)
      requires Valid() && IsStart(code, programCounter)
      modifies this
      ensures Valid()
      ensures error == None ==> Round(code, old(programCounter), o, programCounter) && AtInstruction(code, programCounter)
      ensures error.Some? ==> FailsAt(code, old(programCounter), o, error.value, programCounter)
    {
      ArrivesOn(code, 0, programCounter);
      var opcode := Next();
      error := None;
      if PUSH1 <= opcode <= PUSH32 {
        var _ := Push((opcode - PUSH1) as int + 1);
      } else if opcode == JUMP {
        error := Jump(o.top);
      } else if opcode == JUMPI {
        error := JumpIf(o.top, o.below);
      }
    }

    // The fetch loop, with the stack items of each round given.  It ends past
    // the code, at a failed jump, or where the operands run out.
    method Execute(operands: seq<Operands>) returns (pcs: seq<nat>, error: Option<Failure>)
      requires Valid() && programCounter == 0
      modifies this
      ensures Valid()
      ensures Rounds(code, operands, pcs) && Ends(code, operands, pcs, error, programCounter)
      ensures forall i :: 0 <= i < |pcs| ==> IsStart(code, pcs[i])
    {
      hide IsStart, Round, Rounds, FailsAt;
      pcs, error := [], None;
      NoRounds(code, operands);
      StartsAtZero(code);
      for i := 0 to |operands|
        invariant Valid() && AtInstruction(code, programCounter)
        invariant |pcs| == i && error == None && Rounds(code, operands, pcs)
        invariant forall k :: 0 <= k < |pcs| ==> IsStart(code, pcs[k])
        invariant if pcs == [] then programCounter == 0 else Round(code, Last(pcs), operands[|pcs| - 1], programCounter)
      {
        var pc := programCounter;
        if pc >= |code| {
          var _ := Next();
          assert programCounter == pc;
          return;
        }
        RoundsGrow(code, operands, pcs, pc);
        pcs := pcs + [pc];
        error := ExecuteOne(operands[i]);
        assert Last(pcs) == pc && operands[|pcs| - 1] == operands[i];
        if error.Some? {
          return;
        }
      }
    }
  }

  lemma NoRounds(code: seq<Byte>, operands: seq<Operands>)
    ensures Rounds(code, operands, [])
  {}

  lemma RoundsGrow(code: seq<Byte>, operands: seq<Operands>, pcs: seq<nat>, pc: nat)
    requires Rounds(code, operands, pcs) && |pcs| < |operands| && pc < |code|
    requires if pcs == [] then pc == 0 else Round(code, Last(pcs), operands[|pcs| - 1], pc)
    ensures Rounds(code, operands, pcs + [pc])
  {}

  lemma StartsAtZero(code: seq<Byte>)
    ensures AtInstruction(code, 0)
  {}

  //
  // Every run of the fetch loop
  //

  lemma {:induction false} FetchesInstructions(code: seq<Byte>, operands: seq<Operands>, pcs: seq<nat>, i: nat)
    requires Rounds(code, operands, pcs) && i < |pcs|
    ensures IsStart(code, pcs[i])
  {
    if i > 0 {
      FetchesInstructions(code, operands, pcs, i - 1);
      assert Round(code, pcs[i - 1], operands[i - 1], pcs[i]);
      ArrivesOn(code, 0, pcs[i - 1]);
    }
  }

  // Where an instruction leads: a jump to the top of the stack, with the item
  // below it as the condition of a conditional one; push data is skipped.
  lemma RoundGoes(code: seq<Byte>, pc: nat, o: Operands, pc': nat)
    requires pc < |code|
    ensures var opcode := code[pc] as int;
            Round(code, pc, o, pc') <==>
            if opcode == 0x56 || (opcode == 0x57 && o.below != 0)
            then pc' == o.top && IsStart(code, pc') && code[pc'] as int == 0x5B
            else pc' == pc + if 0x60 <= opcode <= 0x7F then opcode - 0x5E else 1
  {}

  // The position after each of a run's, and the counter at its end.
  lemma NextFetch(code: seq<Byte>, operands: seq<Operands>, pcs: seq<nat>, pc: nat, k: nat)
    requires Rounds(code, operands, pcs) && Ends(code, operands, pcs, None, pc) && k < |pcs|
    ensures pcs[k] < |code|
    ensures var next := if k + 1 < |pcs| then pcs[k + 1] else pc;
            var opcode, o := code[pcs[k]] as int, operands[k];
            if opcode == 0x56 || (opcode == 0x57 && o.below != 0)
            then next == o.top && next < |code| && code[next] as int == 0x5B
            else next == pcs[k] + if 0x60 <= opcode <= 0x7F then opcode - 0x5E else 1
  {
    var m := k + 1;
    if m < |pcs| {
      assert Round(code, pcs[k], operands[k], pcs[m]);
    }
  }

  // A run that fails has jumped to no instruction JUMPDEST.
  lemma FailedJump(code: seq<Byte>, operands: seq<Operands>, pcs: seq<nat>, failure: Failure, pc: nat)
    requires Rounds(code, operands, pcs) && Ends(code, operands, pcs, Some(failure), pc)
    ensures pcs != [] && Last(pcs) < |code| && pc == operands[|pcs| - 1].top
    ensures var opcode, o := code[Last(pcs)] as int, operands[|pcs| - 1];
            opcode == 0x56 || (opcode == 0x57 && o.below != 0)
    ensures !(IsStart(code, pc) && code[pc] as int == 0x5B)
  {}

  // Code and operands decide the run: where it fetches, how and where it ends.
  lemma RunsAgree(code: seq<Byte>, operands: seq<Operands>, pcs: seq<nat>, error: Option<Failure>, pc: nat,
                  pcs': seq<nat>, error': Option<Failure>, pc': nat)
    requires Rounds(code, operands, pcs) && Ends(code, operands, pcs, error, pc)
    requires Rounds(code, operands, pcs') && Ends(code, operands, pcs', error', pc')
    ensures pcs == pcs' && error == error' && pc == pc'
  {
    var n := if |pcs| <= |pcs'| then |pcs| else |pcs'|;
    forall i: nat | i < n ensures pcs[i] == pcs'[i] {
      SameFetch(code, operands, pcs, pcs', i);
    }
    if |pcs| < |pcs'| {
      NotFurther(code, operands, pcs, error, pc, pcs');
    } else if |pcs'| < |pcs| {
      NotFurther(code, operands, pcs', error', pc', pcs);
    }
  }

  lemma {:induction false} SameFetch(code: seq<Byte>, operands: seq<Operands>, pcs: seq<nat>, pcs': seq<nat>, i: nat)
    requires Rounds(code, operands, pcs) && Rounds(code, operands, pcs') && i < |pcs| && i < |pcs'|
    ensures pcs[i] == pcs'[i]
  {
    if i > 0 {
      SameFetch(code, operands, pcs, pcs', i - 1);
      assert Round(code, pcs[i - 1], operands[i - 1], pcs[i]) && Round(code, pcs'[i - 1], operands[i - 1], pcs'[i]);
    }
  }

  // No run goes on where another ended.
  lemma NotFurther(code: seq<Byte>, operands: seq<Operands>, pcs: seq<nat>, error: Option<Failure>, pc: nat, more: seq<nat>)
    requires Rounds(code, operands, pcs) && Ends(code, operands, pcs, error, pc) && Rounds(code, operands, more)
    requires forall i :: 0 <= i < |pcs| && i < |more| ==> pcs[i] == more[i]
    ensures |more| <= |pcs|
  {
    if |pcs| < |more| && pcs != [] {
      hide Rounds;
      NextOf(code, operands, more, |pcs| - 1);
    }
  }

  lemma NextOf(code: seq<Byte>, operands: seq<Operands>, pcs: seq<nat>, k: nat)
    requires Rounds(code, operands, pcs) && k + 1 < |pcs|
    ensures |pcs| <= |operands| && Round(code, pcs[k], operands[k], pcs[k + 1]) && pcs[k + 1] < |code|
  {
    var m := k + 1;
    assert Round(code, pcs[k], operands[k], pcs[m]);
  }
}
