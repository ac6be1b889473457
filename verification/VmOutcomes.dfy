/** How single instructions end a run: what the opcode table implements, and what each opcode asks
    of the stack. */
module VmOutcomes {
  import opened Collections
  import opened Vm
  import opened VmRuns

  /** The opcodes the machine implements, by number. */
  predicate Implemented(opcode: byte) {
    opcode in [0x01, 0x02, 0x03, 0x04, 0x05, 0x0B, 0x0C, 0x0D, 0x0E, 0x0F, 0xFF]
  }

  /** The price list also has entries for opcodes that are not implemented; STOP and all others pay
      the base cost. */
  function PriceOfOthers(opcode: byte): nat {
    if opcode == 0x06 then 8 else if opcode == 0x07 then 10 else if 0x08 <= opcode <= 0x0A then 3 else 2
  }

  lemma OtherPrices(opcode: byte)
    requires !Implemented(opcode) || opcode == 0xFF
    ensures GasCost(opcode) == PriceOfOthers(opcode)
  {
  }

  /** What comes after an instruction lies behind it, so a run that stops at an offset stopped there. */
  lemma StopsWhereItIs(m: Machine, s: State)
    requires s.pc < |m.program| && Run(m, s).1.pc == s.pc
    ensures Step(m, s).Halt? && Run(m, s) == (Step(m, s).outcome, Step(m, s).state)
  {
    RunUnfolds(m, s);
    if Step(m, s).Next? {
      OffsetsIncrease(m, Step(m, s).state);
    }
  }

  lemma OnlyOthersAreInvalid(m: Machine, s: State, opcode: byte)
    requires s.pc < |m.program|
    ensures Instruction(m, s, opcode) == Halt(Failed(InvalidOpcode(opcode)), s) <==> !Implemented(opcode)
  {
  }

  /** An instruction that can be paid ends the run as an invalid opcode exactly when its opcode is
      not on the list: the jumps and comparisons that have a price but no implementation included. */
  lemma InvalidExactly(m: Machine, s: State)
    requires s.pc < |m.program|
    requires var opcode := m.program[s.pc]; s.gas >= GasCost(opcode)
    ensures var opcode := m.program[s.pc];
            && (Run(m, s) == (Failed(InvalidOpcode(opcode)), s.(gas := s.gas - GasCost(opcode)))
                <==> !Implemented(opcode))
            && (!Implemented(opcode) ==>
                  Run(m, s) == (Failed(InvalidOpcode(opcode)), s.(gas := s.gas - PriceOfOthers(opcode))))
  {
    var opcode := m.program[s.pc];
    RunUnfolds(m, s);
    StepIsInstruction(m, s);
    OnlyOthersAreInvalid(m, Paid(m, s), opcode);
    if Run(m, s) == (Failed(InvalidOpcode(opcode)), s.(gas := s.gas - GasCost(opcode))) {
      StopsWhereItIs(m, s);
    }
    if !Implemented(opcode) {
      OtherPrices(opcode);
    }
  }

  /** STOP completes the run, whatever follows; an unpaid instruction ends it and changes nothing. */
  lemma StopCompletes(m: Machine, s: State)
    requires s.pc < |m.program|
    ensures m.program[s.pc] == 0xFF && s.gas >= 2 ==> Run(m, s) == (Done, s.(gas := s.gas - 2))
    ensures s.gas < GasCost(m.program[s.pc]) ==> Run(m, s) == (Failed(GasLimitExceeded), s)
  {
    RunUnfolds(m, s);
  }

  // ---------- What an opcode asks of the stack ----------

  datatype Kind = AnInt | AnAddress | Anything

  predicate IsKind(v: Value, kind: Kind) {
    match kind
    case AnInt => v.Int?
    case AnAddress => v.Address?
    case Anything => true
  }

  /** The operands of each opcode, from the top of the stack down. */
  function Needs(opcode: byte): seq<Kind> {
    match opcode
    case 0x02 => [AnInt, AnInt]
    case 0x03 => [AnInt, AnInt]
    case 0x04 => [AnInt, Anything]
    case 0x05 => [AnInt]
    case 0x0B => [AnInt, AnInt]
    case 0x0C => [AnAddress, AnInt, AnInt]
    case 0x0D => [AnInt, AnInt]
    case 0x0E => [AnInt, AnInt]
    case 0x0F => [AnAddress]
    case _ => []
  }

  predicate Supplied(stack: seq<Value>, needs: seq<Kind>) {
    needs == [] ||
    (stack != [] && IsKind(stack[|stack| - 1], needs[0]) && Supplied(stack[..|stack| - 1], needs[1..]))
  }

  /** Spelled out: enough values, each of its kind. */
  lemma {:induction false} SuppliedMeans(stack: seq<Value>, needs: seq<Kind>)
    ensures Supplied(stack, needs) <==>
              && |needs| <= |stack|
              && forall i | 0 <= i < |needs| :: IsKind(stack[|stack| - 1 - i], needs[i])
    decreases |needs|
  {
    if needs != [] && stack != [] {
      var rest := stack[..|stack| - 1];
      SuppliedMeans(rest, needs[1..]);
      assert forall i | 0 < i < |needs| && i <= |rest| ::
        rest[|rest| - 1 - (i - 1)] == stack[|stack| - 1 - i] && needs[1..][i - 1] == needs[i];
      if forall i | 0 <= i < |needs[1..]| && i < |rest| :: IsKind(rest[|rest| - 1 - i], needs[1..][i]) {
        forall i | 0 < i < |needs| && i <= |rest|
          ensures IsKind(stack[|stack| - 1 - i], needs[i])
        {
          assert IsKind(rest[|rest| - 1 - (i - 1)], needs[1..][i - 1]);
        }
      }
    }
  }

  predicate Underflows(r: StepResult) {
    r.Halt? && r.outcome == Failed(StackUnderflow)
  }

  lemma TwoIntsNeeded(stack: seq<Value>)
    ensures PopTwo(stack).Missing? <==> !Supplied(stack, [AnInt, AnInt])
  {
    var rest := Rest(stack);
    assert [AnInt, AnInt][1..] == [AnInt] && [AnInt][1..] == [];
    if stack != [] {
      assert Supplied(rest, [AnInt]) <==> rest != [] && rest[|rest| - 1].Int?;
    }
  }

  lemma CallNeeds(s: State)
    ensures Underflows(DoCall(s)) <==> !Supplied(s.stack, [AnAddress, AnInt, AnInt])
  {
    var rest := Rest(s.stack);
    assert [AnAddress, AnInt, AnInt][1..] == [AnInt, AnInt];
    TwoIntsNeeded(rest);
  }

  lemma StoreNeeds(s: State)
    ensures Underflows(DoStore(s)) <==> !Supplied(s.stack, [AnInt, Anything])
  {
    var rest := Rest(s.stack);
    assert [AnInt, Anything][1..] == [Anything] && [Anything][1..] == [];
    if s.stack != [] {
      assert Supplied(rest, [Anything]) <==> rest != [];
    }
  }

  lemma OneNeeded(stack: seq<Value>, kind: Kind)
    ensures Supplied(stack, [kind]) <==> stack != [] && IsKind(stack[|stack| - 1], kind)
  {
    assert [kind][1..] == [];
  }

  lemma InstructionUnderflows(m: Machine, s: State, opcode: byte)
    requires s.pc < |m.program|
    ensures Underflows(Instruction(m, s, opcode)) <==> !Supplied(s.stack, Needs(opcode))
  {
    TwoIntsNeeded(s.stack);
    if opcode == STORE {
      StoreNeeds(s);
    } else if opcode == CALL {
      CallNeeds(s);
    } else if opcode == LOAD {
      OneNeeded(s.stack, AnInt);
    } else if opcode == BALANCE {
      OneNeeded(s.stack, AnAddress);
    }
  }

  /** An instruction that can be paid ends the run with a stack underflow exactly when the stack does
      not start, from the top, with what its opcode needs: too few values, or one of the wrong kind.
      Nothing is written, and only values from the top of the stack are gone. */
  lemma UnderflowExactly(m: Machine, s: State)
    requires s.pc < |m.program| && s.gas >= GasCost(m.program[s.pc])
    ensures Underflows(Step(m, s)) <==> !Supplied(s.stack, Needs(m.program[s.pc]))
    ensures !Supplied(s.stack, Needs(m.program[s.pc])) ==>
              && Run(m, s).0 == Failed(StackUnderflow)
              && OnlyPopped(s, Run(m, s).1)
              && Run(m, s).1.gas == s.gas - GasCost(m.program[s.pc])
  {
    var opcode := m.program[s.pc];
    StepIsInstruction(m, s);
    InstructionUnderflows(m, Paid(m, s), opcode);
    if !Supplied(s.stack, Needs(opcode)) {
      RunUnfolds(m, s);
      HaltOnlyPops(m, s);
      UnderflowKeepsGas(m, Paid(m, s), opcode);
    }
  }

  lemma UnderflowKeepsGas(m: Machine, s: State, opcode: byte)
    requires s.pc < |m.program| && Underflows(Instruction(m, s, opcode))
    ensures Instruction(m, s, opcode).state.gas == s.gas
  {
  }

  // ---------- How the two opcodes with inline bytes fail ----------

  /** PUSH panics exactly at the last byte of a program, and elsewhere overflows exactly a full stack. */
  lemma PushFails(m: Machine, s: State)
    requires s.pc < |m.program| && m.program[s.pc] == 0x01 && s.gas >= 3
    ensures Step(m, s).Halt? <==> s.pc + 1 == |m.program| || |s.stack| >= 1024
    ensures s.pc + 1 == |m.program| ==> Run(m, s) == (Trap, s.(gas := s.gas - 3))
    ensures s.pc + 1 < |m.program| && |s.stack| >= 1024 ==>
              Run(m, s) == (Failed(StackOverflow), s.(gas := s.gas - 3))
  {
    RunUnfolds(m, s);
  }

  /** CREATE takes its operands, then charges 32000 gas, and then panics exactly when the code it is to
      take reaches beyond the program. */
  lemma CreateFails(m: Machine, s: State, stack: seq<Value>, size: i64, balance: i64)
    requires s.pc < |m.program| && m.program[s.pc] == 0x0B && s.gas >= 400
    requires s.stack == stack + [Int(size)] + [Int(balance)]
    ensures s.gas < 32400 ==> Run(m, s) == (Failed(GasLimitExceeded), s.(stack := stack, gas := s.gas - 400))
    ensures s.gas >= 32400 && s.pc + 1 + AsU64(size) > |m.program| ==>
              Run(m, s) == (Trap, s.(stack := stack, gas := s.gas - 32400))
    ensures Step(m, s).Halt? <==> s.gas < 32400 || s.pc + 1 + AsU64(size) > |m.program|
  {
    RunUnfolds(m, s);
    StepIsInstruction(m, s);
    assert Rest(s.stack) == stack + [Int(size)];
    assert Rest(stack + [Int(size)]) == stack;
    assert PopTwo(s.stack) == Operands(size, balance, stack);
    assert Step(m, s) == DoCreate(m, s.(gas := s.gas - 400));
  }
}
