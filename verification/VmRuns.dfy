/** What every run of the interpreter keeps, and how two runs compare. */
module VmRuns {
  import opened Collections
  import opened Vm

  // ---------- Metering ----------

  /** The gas an instruction actually takes: nothing if it cannot be paid, and for a contract
      creation that reaches it, the creation charge as well. */
  function Charge(m: Machine, s: State): nat
    requires s.pc < |m.program|
  {
    var cost := GasCost(m.program[s.pc]);
    if s.gas < cost then 0
    else if m.program[s.pc] == CREATE && PopTwo(s.stack).Operands? && s.gas - cost >= CONTRACT_CREATION
    then cost + CONTRACT_CREATION
    else cost
  }

  /** The states a run passes through, from the first to the last. */
  function Visited(m: Machine, s: State): (states: seq<State>)
    ensures states != [] && states[0] == s
    decreases |m.program| - s.pc
  {
    if s.pc >= |m.program| then [s]
    else
      var r := Step(m, s);
      [s] + (if r.Next? then Visited(m, r.state) else [r.state])
  }

  /** Gas taken along a run. */
  function Charges(m: Machine, s: State): nat
    decreases |m.program| - s.pc
  {
    if s.pc >= |m.program| then 0
    else
      var r := Step(m, s);
      Charge(m, s) + (if r.Next? then Charges(m, r.state) else 0)
  }

  /** Program offsets dispatched along a run. */
  function Offsets(m: Machine, s: State): seq<nat>
    decreases |m.program| - s.pc
  {
    if s.pc >= |m.program| then []
    else
      var r := Step(m, s);
      [s.pc] + (if r.Next? then Offsets(m, r.state) else [])
  }

  /** Instructions paid for along a run. */
  function PaidSteps(m: Machine, s: State): nat
    decreases |m.program| - s.pc
  {
    if s.pc >= |m.program| then 0
    else
      var r := Step(m, s);
      (if s.gas >= GasCost(m.program[s.pc]) then 1 else 0) + (if r.Next? then PaidSteps(m, r.state) else 0)
  }

  lemma StepCharges(m: Machine, s: State)
    requires s.pc < |m.program|
    ensures Step(m, s).state.gas + Charge(m, s) == s.gas
    ensures s.gas >= GasCost(m.program[s.pc]) ==> Charge(m, s) >= 2
  {
  }

  /** Exact metering: whatever the outcome, the gas a run starts with is what it ends with plus
      what it was charged, and every paid instruction costs at least two. */
  lemma {:induction false} Metering(m: Machine, s: State)
    ensures Run(m, s).1.gas + Charges(m, s) == s.gas
    ensures 2 * PaidSteps(m, s) <= Charges(m, s)
    decreases |m.program| - s.pc
  {
    if s.pc < |m.program| {
      StepCharges(m, s);
      RunUnfolds(m, s);
      if Step(m, s).Next? {
        Metering(m, Step(m, s).state);
      }
    }
  }

  /** Offsets strictly increase inside the program, so none is dispatched twice and a run is no
      longer than what is left of the program. */
  lemma {:induction false} OffsetsIncrease(m: Machine, s: State)
    requires s.pc <= |m.program|
    ensures forall i | 0 <= i < |Offsets(m, s)| :: s.pc <= Offsets(m, s)[i] < |m.program|
    ensures forall i, j | 0 <= i < j < |Offsets(m, s)| :: Offsets(m, s)[i] < Offsets(m, s)[j]
    ensures |Offsets(m, s)| <= |m.program| - s.pc
    ensures PaidSteps(m, s) <= |Offsets(m, s)|
    ensures s.pc <= Run(m, s).1.pc <= |m.program|
    decreases |m.program| - s.pc
  {
    if s.pc < |m.program| {
      RunUnfolds(m, s);
      StepKeepsOffset(m, s);
      if Step(m, s).Next? {
        OffsetsIncrease(m, Step(m, s).state);
      }
    }
  }

  /** An instruction that halts leaves the offset where it was. */
  lemma StepKeepsOffset(m: Machine, s: State)
    requires s.pc < |m.program|
    ensures Step(m, s).Halt? ==> Step(m, s).state.pc == s.pc
  {
  }

  /** What a halting instruction may leave behind: operands it popped and gas it took. */
  ghost predicate OnlyPopped(s: State, t: State) {
    && t.memory == s.memory && t.callStack == s.callStack && t.pc == s.pc
    && t.stack <= s.stack && t.gas <= s.gas
  }

  lemma PopTwoIsPrefix(stack: seq<Value>)
    ensures PopTwo(stack).stack <= stack
  {
  }

  lemma InstructionOnlyPops(m: Machine, s: State, opcode: byte)
    requires s.pc < |m.program| && Instruction(m, s, opcode).Halt?
    ensures OnlyPopped(s, Instruction(m, s, opcode).state)
  {
    PopTwoIsPrefix(s.stack);
    if opcode == CALL {
      PopTwoIsPrefix(Rest(s.stack));
      assert OnlyPopped(s, DoCall(s).state);
    } else if opcode == CREATE {
      assert OnlyPopped(s, DoCreate(m, s).state);
    } else if opcode == SHA3 || opcode == RETURN {
      assert DoSha3(m, s).Halt? ==> OnlyPopped(s, DoSha3(m, s).state);
      assert DoReturn(m, s).Halt? ==> OnlyPopped(s, DoReturn(m, s).state);
    }
  }

  /** However an instruction halts the machine, it has written nothing: memory, call stack and
      offset are as they were, and the stack only lost values from its top. */
  lemma HaltOnlyPops(m: Machine, s: State)
    requires s.pc < |m.program| && Step(m, s).Halt?
    ensures OnlyPopped(s, Step(m, s).state)
  {
    if s.gas >= GasCost(m.program[s.pc]) {
      StepIsInstruction(m, s);
      InstructionOnlyPops(m, Paid(m, s), m.program[s.pc]);
    }
  }

  // ---------- Running with other gas ----------

  function WithGas(r: StepResult, gas: nat): StepResult {
    r.(state := r.state.(gas := gas))
  }

  /** Only contract creation looks at the gas that is left. */
  lemma OthersIgnoreGas(m: Machine, s: State, gas: nat, opcode: byte)
    requires s.pc < |m.program| && opcode != CREATE
    ensures Instruction(m, s.(gas := gas), opcode) == WithGas(Instruction(m, s, opcode), gas)
    ensures Instruction(m, s, opcode).state.gas == s.gas
    ensures Instruction(m, s, opcode).Halt? ==> Instruction(m, s, opcode).outcome != Failed(GasLimitExceeded)
  {
    if opcode == PUSH {
    } else if opcode == ADD || opcode == MUL {
      assert DoArithmetic(s.(gas := gas), opcode) == WithGas(DoArithmetic(s, opcode), gas);
    } else if opcode == STORE {
      assert DoStore(s.(gas := gas)) == WithGas(DoStore(s), gas);
    } else if opcode == LOAD {
      assert DoLoad(s.(gas := gas)) == WithGas(DoLoad(s), gas);
    } else if opcode == CALL {
      assert DoCall(s.(gas := gas)) == WithGas(DoCall(s), gas);
    } else if opcode == RETURN {
      assert DoReturn(m, s.(gas := gas)) == WithGas(DoReturn(m, s), gas);
    } else if opcode == SHA3 {
      assert DoSha3(m, s.(gas := gas)) == WithGas(DoSha3(m, s), gas);
    } else if opcode == BALANCE {
      assert DoBalance(s.(gas := gas)) == WithGas(DoBalance(s), gas);
    }
  }

  predicate OutOfGas(r: StepResult) {
    r.Halt? && r.outcome == Failed(GasLimitExceeded)
  }

  /** `r` with `extra` more (or less) gas left, or out of gas if that is not there. */
  ghost predicate ShiftsGas(r: StepResult, r': StepResult, extra: int) {
    if r.state.gas + extra >= 0 then r' == WithGas(r, r.state.gas + extra)
    else OutOfGas(r')
  }

  /** Contract creation looks at the gas only to pay its charge. */
  lemma CreateWithGas(m: Machine, s: State, extra: int)
    requires s.gas + extra >= 0 && !OutOfGas(DoCreate(m, s))
    ensures ShiftsGas(DoCreate(m, s), DoCreate(m, s.(gas := s.gas + extra)), extra)
  {
  }

  lemma InstructionWithGas(m: Machine, s: State, extra: int, opcode: byte)
    requires s.pc < |m.program| && s.gas + extra >= 0 && !OutOfGas(Instruction(m, s, opcode))
    ensures Instruction(m, s, opcode).state.gas <= s.gas
    ensures ShiftsGas(Instruction(m, s, opcode), Instruction(m, s.(gas := s.gas + extra), opcode), extra)
  {
    if opcode == CREATE {
      CreateWithGas(m, s, extra);
    } else {
      OthersIgnoreGas(m, s, s.gas + extra, opcode);
    }
  }

  lemma StepWithGas(m: Machine, s: State, extra: int)
    requires s.pc < |m.program| && s.gas + extra >= 0 && !OutOfGas(Step(m, s))
    ensures ShiftsGas(Step(m, s), Step(m, s.(gas := s.gas + extra)), extra)
  {
    var s', opcode := s.(gas := s.gas + extra), m.program[s.pc];
    StepIsInstruction(m, s);
    if s'.gas >= GasCost(opcode) {
      StepIsInstruction(m, s');
      var paid, paid' := Paid(m, s), Paid(m, s');
      assert paid' == paid.(gas := paid.gas + extra);
      InstructionWithGas(m, paid, extra, opcode);
      assert Step(m, s') == Instruction(m, paid', opcode);
    } else {
      InstructionWithGas(m, Paid(m, s), 0, opcode);
    }
  }

  /** A run with `extra` more (or less) gas has the same outcome and ends with as much more (or less),
      or out of gas if that is not there. */
  ghost predicate RunShiftsGas(x: (Outcome, State), x': (Outcome, State), extra: int) {
    if x.1.gas + extra >= 0 then x' == (x.0, x.1.(gas := x.1.gas + extra))
    else x'.0 == Failed(GasLimitExceeded)
  }

  /** If one step shifts gas, and so does the run from there, then the whole run does. */
  lemma ShiftCarries(m: Machine, r: StepResult, r': StepResult, extra: int)
    requires ShiftsGas(r, r', extra)
    requires r.Next? && r.state.gas + extra >= 0 ==>
               RunShiftsGas(Run(m, r.state), Run(m, r.state.(gas := r.state.gas + extra)), extra)
    ensures RunShiftsGas(Continued(m, r), Continued(m, r'), extra)
  {
    if r.Next? && r.state.gas + extra < 0 {
      GasFalls(m, r.state);
    }
  }

  lemma {:induction false} RunWithGas(m: Machine, s: State, s': State, extra: int)
    requires s.gas + extra >= 0 && s' == s.(gas := s.gas + extra)
    requires Run(m, s).0 != Failed(GasLimitExceeded)
    ensures RunShiftsGas(Run(m, s), Run(m, s'), extra)
    decreases |m.program| - s.pc
  {
    if s.pc < |m.program| {
      RunUnfolds(m, s);
      RunUnfolds(m, s');
      StepWithGas(m, s, extra);
      var r, r' := Step(m, s), Step(m, s');
      if r.Next? && r.state.gas + extra >= 0 {
        RunWithGas(m, r.state, r.state.(gas := r.state.gas + extra), extra);
      }
      ShiftCarries(m, r, r', extra);
    }
  }

  /** The gas a run takes is exactly the gas it needs: starting with `extra` more, or less, it does the
      same and ends with exactly that much more, or less; unless that is below zero, when it
      ends out of gas. */
  lemma GasShift(m: Machine, s: State, extra: int)
    requires s.gas + extra >= 0 && Run(m, s).0 != Failed(GasLimitExceeded)
    ensures var (outcome, t) := Run(m, s);
            var (outcome', t') := Run(m, s.(gas := s.gas + extra));
            if t.gas + extra >= 0 then outcome' == outcome && t' == t.(gas := t.gas + extra)
            else outcome' == Failed(GasLimitExceeded)
  {
    RunWithGas(m, s, s.(gas := s.gas + extra), extra);
  }

  lemma GasFalls(m: Machine, s: State)
    ensures Run(m, s).1.gas <= s.gas
  {
    Metering(m, s);
  }

  // ---------- Running on top of other values ----------

  function Framed(s: State, below: seq<Value>): State {
    s.(stack := below + s.stack)
  }

  /** The highest the stack gets by pushing, over a run. */
  function Peak(m: Machine, s: State): nat
    decreases |m.program| - s.pc
  {
    if s.pc >= |m.program| then 0
    else
      var r := Step(m, s);
      var here := if m.program[s.pc] == PUSH && r.Next? then |s.stack| + 1 else 0;
      var later := if r.Next? then Peak(m, r.state) else 0;
      if here > later then here else later
  }

  lemma RestFramed(stack: seq<Value>, below: seq<Value>)
    requires stack != []
    ensures Rest(below + stack) == below + Rest(stack)
    ensures TopInt(below + stack) == TopInt(stack) && TopAddress(below + stack) == TopAddress(stack)
  {
  }

  lemma PopTwoFramed(stack: seq<Value>, below: seq<Value>)
    requires PopTwo(stack).Operands?
    ensures PopTwo(below + stack) == PopTwo(stack).(stack := below + PopTwo(stack).stack)
  {
    RestFramed(stack, below);
    RestFramed(Rest(stack), below);
  }

  lemma PushedFramed(stack: seq<Value>, below: seq<Value>, pushed: seq<Value>)
    ensures below + stack + pushed == below + (stack + pushed)
  {
  }

  function FramedResult(r: StepResult, below: seq<Value>): StepResult {
    r.(state := Framed(r.state, below))
  }

  lemma ArithmeticFramed(s: State, opcode: byte, below: seq<Value>)
    requires DoArithmetic(s, opcode).Next?
    ensures DoArithmetic(Framed(s, below), opcode) == FramedResult(DoArithmetic(s, opcode), below)
  {
    PopTwoFramed(s.stack, below);
    var operands := PopTwo(s.stack);
    PushedFramed(operands.stack, below, [Int(Combine(opcode, operands.below, operands.top))]);
  }

  lemma StoreFramed(s: State, below: seq<Value>)
    requires DoStore(s).Next?
    ensures DoStore(Framed(s, below)) == FramedResult(DoStore(s), below)
  {
    var rest := Rest(s.stack);
    RestFramed(s.stack, below);
    RestFramed(rest, below);
    assert (below + rest)[|below + rest| - 1] == rest[|rest| - 1];
  }

  lemma LoadFramed(s: State, below: seq<Value>)
    requires DoLoad(s).Next?
    ensures DoLoad(Framed(s, below)) == FramedResult(DoLoad(s), below)
  {
    RestFramed(s.stack, below);
    PushedFramed(Rest(s.stack), below, [s.memory[AsU64(TopInt(s.stack).value)]]);
  }

  lemma CreateFramed(m: Machine, s: State, below: seq<Value>)
    requires DoCreate(m, s).Next?
    ensures DoCreate(m, Framed(s, below)) == FramedResult(DoCreate(m, s), below)
  {
    PopTwoFramed(s.stack, below);
    var operands := PopTwo(s.stack);
    var code := m.program[s.pc + 1..s.pc + 1 + AsU64(operands.below)];
    PushedFramed(operands.stack, below,
      [Address(m.digest(code)), Contract(ContractData(code, map[], AsU64(operands.top)))]);
  }

  lemma CallFramed(s: State, below: seq<Value>)
    requires DoCall(s).Next?
    ensures DoCall(Framed(s, below)) == FramedResult(DoCall(s), below)
  {
    RestFramed(s.stack, below);
    PopTwoFramed(Rest(s.stack), below);
    assert ContractAt(Framed(s, below), TopAddress(s.stack).value) == ContractAt(s, TopAddress(s.stack).value);
  }

  lemma ReturnFramed(m: Machine, s: State, below: seq<Value>)
    requires DoReturn(m, s).Next?
    ensures DoReturn(m, Framed(s, below)) == FramedResult(DoReturn(m, s), below)
  {
    PopTwoFramed(s.stack, below);
  }

  lemma Sha3Framed(m: Machine, s: State, below: seq<Value>)
    requires DoSha3(m, s).Next?
    ensures DoSha3(m, Framed(s, below)) == FramedResult(DoSha3(m, s), below)
  {
    PopTwoFramed(s.stack, below);
    var operands := PopTwo(s.stack);
    var data := m.program[AsU64(operands.below)..AsU64(operands.below) + AsU64(operands.top)];
    PushedFramed(operands.stack, below, [Bytes(m.digest(data))]);
  }

  lemma BalanceFramed(s: State, below: seq<Value>)
    requires DoBalance(s).Next?
    ensures DoBalance(Framed(s, below)) == FramedResult(DoBalance(s), below)
  {
    RestFramed(s.stack, below);
    var address := TopAddress(s.stack).value;
    assert ContractAt(Framed(s, below), address) == ContractAt(s, address);
    PushedFramed(Rest(s.stack), below, [Int(AsI64(ContractAt(s, address).value.balance))]);
  }

  /** Every instruction but a push works the same on top of other values. */
  lemma OthersFramed(m: Machine, s: State, below: seq<Value>, opcode: byte)
    requires s.pc < |m.program| && opcode != PUSH
    requires var r := Instruction(m, s, opcode); r.Next? || r.outcome == Done
    ensures Instruction(m, Framed(s, below), opcode) == FramedResult(Instruction(m, s, opcode), below)
  {
    if opcode == ADD || opcode == MUL { ArithmeticFramed(s, opcode, below); }
    else if opcode == STORE { StoreFramed(s, below); }
    else if opcode == LOAD { LoadFramed(s, below); }
    else if opcode == CREATE { CreateFramed(m, s, below); }
    else if opcode == CALL { CallFramed(s, below); }
    else if opcode == RETURN { ReturnFramed(m, s, below); }
    else if opcode == SHA3 { Sha3Framed(m, s, below); }
    else if opcode == BALANCE { BalanceFramed(s, below); }
  }

  lemma PushFramed(m: Machine, s: State, below: seq<Value>)
    requires s.pc < |m.program| && DoPush(m, s).Next?
    ensures DoPush(m, Framed(s, below))
         == if |below| + |s.stack| >= STACK_LIMIT then Halt(Failed(StackOverflow), Framed(s, below))
            else FramedResult(DoPush(m, s), below)
  {
    PushedFramed(s.stack, below, [Int(m.program[s.pc + 1])]);
  }

  lemma StepFramed(m: Machine, s: State, below: seq<Value>)
    requires s.pc < |m.program|
    requires var r := Step(m, s); r.Next? || r.outcome == Done
    ensures var r := Step(m, s);
            if m.program[s.pc] == PUSH && |below| + |s.stack| >= STACK_LIMIT
            then Step(m, Framed(s, below)).Halt? && Step(m, Framed(s, below)).outcome == Failed(StackOverflow)
            else Step(m, Framed(s, below)) == FramedResult(r, below)
  {
    StepIsInstruction(m, s);
    StepIsInstruction(m, Framed(s, below));
    assert Paid(m, Framed(s, below)) == Framed(Paid(m, s), below);
    if m.program[s.pc] == PUSH {
      PushFramed(m, Paid(m, s), below);
    } else {
      OthersFramed(m, Paid(m, s), below, m.program[s.pc]);
    }
  }

  /** A completed run can be placed on top of any values: it leaves them under its result and
      changes nothing else, unless they are so many that a push overflows the stack. */
  lemma {:induction false} StackFraming(m: Machine, s: State, below: seq<Value>)
    requires Run(m, s).0 == Done
    ensures var t := Run(m, s).1;
            if Peak(m, s) > 0 && |below| + Peak(m, s) > STACK_LIMIT
            then Run(m, Framed(s, below)).0 == Failed(StackOverflow)
            else Run(m, Framed(s, below)) == (Done, Framed(t, below))
    decreases |m.program| - s.pc
  {
    if s.pc < |m.program| {
      RunUnfolds(m, s);
      RunUnfolds(m, Framed(s, below));
      StepFramed(m, s, below);
      if Step(m, s).Next? {
        StackFraming(m, Step(m, s).state, below);
      }
    }
  }

  // ---------- Run invariant ----------

  /** Integers are not negative and balances fit an i64. */
  predicate ValueOk(v: Value) {
    match v
    case Int(n) => n >= 0
    case Contract(c) => c.balance < I64_LIMIT
    case _ => true
  }

  ghost predicate StateOk(s: State) {
    && |s.stack| <= STACK_LIMIT
    && (forall i | 0 <= i < |s.stack| :: ValueOk(s.stack[i]))
    && (forall a | a in s.memory :: ValueOk(s.memory[a]))
  }

  lemma PopTwoOk(stack: seq<Value>)
    requires forall i | 0 <= i < |stack| :: ValueOk(stack[i])
    ensures var p := PopTwo(stack);
            && |p.stack| <= |stack|
            && (forall i | 0 <= i < |p.stack| :: ValueOk(p.stack[i]))
            && (p.Operands? ==> p.below >= 0 && p.top >= 0 && |p.stack| == |stack| - 2)
  {
  }

  lemma ArithmeticKeepsOk(s: State, opcode: byte)
    requires StateOk(s)
    ensures StateOk(DoArithmetic(s, opcode).state)
  {
    PopTwoOk(s.stack);
    var p := PopTwo(s.stack);
    if p.Operands? {
      assert p.below * p.top >= 0;
    }
  }

  lemma PushKeepsOk(m: Machine, s: State)
    requires StateOk(s)
    ensures StateOk(DoPush(m, s).state)
  {
  }

  lemma MemoryInstructionsKeepOk(s: State)
    requires StateOk(s)
    ensures StateOk(DoStore(s).state) && StateOk(DoLoad(s).state)
  {
  }

  lemma BalanceKeepsOk(s: State)
    requires StateOk(s)
    ensures StateOk(DoBalance(s).state)
  {
  }

  lemma CreateKeepsOk(m: Machine, s: State)
    requires StateOk(s)
    ensures StateOk(DoCreate(m, s).state)
  {
    PopTwoOk(s.stack);
  }

  lemma ReadsKeepOk(m: Machine, s: State)
    requires StateOk(s)
    ensures StateOk(DoSha3(m, s).state) && StateOk(DoReturn(m, s).state)
  {
    PopTwoOk(s.stack);
  }

  lemma CallKeepsOk(s: State)
    requires StateOk(s)
    ensures StateOk(DoCall(s).state)
  {
    PopTwoOk(Rest(s.stack));
  }

  lemma InstructionKeepsOk(m: Machine, s: State, opcode: byte)
    requires s.pc < |m.program| && StateOk(s)
    ensures StateOk(Instruction(m, s, opcode).state)
  {
    if opcode == PUSH { PushKeepsOk(m, s); }
    else if opcode == ADD || opcode == MUL { ArithmeticKeepsOk(s, opcode); }
    else if opcode == STORE || opcode == LOAD { MemoryInstructionsKeepOk(s); }
    else if opcode == CREATE { CreateKeepsOk(m, s); }
    else if opcode == CALL { CallKeepsOk(s); }
    else if opcode == RETURN || opcode == SHA3 { ReadsKeepOk(m, s); }
    else if opcode == BALANCE { BalanceKeepsOk(s); }
  }

  lemma StepKeepsOk(m: Machine, s: State)
    requires s.pc < |m.program| && StateOk(s)
    ensures StateOk(Step(m, s).state)
  {
    var opcode := m.program[s.pc];
    if s.gas >= GasCost(opcode) {
      InstructionKeepsOk(m, Paid(m, s), opcode);
      StepIsInstruction(m, s);
    }
  }

  /** From the start, only a push checks the stack limit, yet the stack never exceeds it; and no
      integer is ever negative, no balance ever too large. */
  lemma {:induction false} VisitedAreOk(m: Machine, s: State)
    requires StateOk(s)
    ensures forall i | 0 <= i < |Visited(m, s)| :: StateOk(Visited(m, s)[i])
    ensures Visited(m, s)[|Visited(m, s)| - 1] == Run(m, s).1
    decreases |m.program| - s.pc
  {
    if s.pc < |m.program| {
      StepKeepsOk(m, s);
      RunUnfolds(m, s);
      if Step(m, s).Next? {
        VisitedAreOk(m, Step(m, s).state);
      }
    }
  }

  /** In general the two casts wrap modulo 2^64, and undo each other. */
  lemma CastsWrap(v: i64, n: u64)
    ensures exists k :: AsU64(v) == v + k * 0x1_0000_0000_0000_0000
    ensures exists k :: AsI64(n) == n + k * 0x1_0000_0000_0000_0000
    ensures AsI64(AsU64(v)) == v && AsU64(AsI64(n)) == n
  {
    assert AsU64(v) == v + (if v < 0 then 1 else 0) * 0x1_0000_0000_0000_0000;
    assert AsI64(n) == n + (if n >= I64_LIMIT then -1 else 0) * 0x1_0000_0000_0000_0000;
  }

  /** So in every state of every run no cast loses anything: an integer read as an address, a size,
      a value or a gas limit is itself, and a balance pushed back is itself. */
  lemma CastsLoseNothing(m: Machine, gasLimit: nat, t: State)
    requires t in Visited(m, Start(gasLimit))
    ensures |t.stack| <= STACK_LIMIT
    ensures forall v | v in t.stack && v.Int? :: AsU64(v.number) == v.number
    ensures forall a | a in t.memory && t.memory[a].Contract? ::
              AsI64(t.memory[a].contract.balance) == t.memory[a].contract.balance
  {
    VisitedAreOk(m, Start(gasLimit));
  }
}
