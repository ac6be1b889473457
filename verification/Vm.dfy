/** The metered stack machine (src/vm.rs): one instruction and whole runs as functions on a
    value, and the object whose loop carries them out in place. */
module Vm {
  import opened Collections

  const I64_LIMIT: int := 0x8000_0000_0000_0000
  const STACK_LIMIT: nat := 1024
  const BASE_COST: nat := 2
  const CONTRACT_CREATION: nat := 32000

  type i64 = x: int | -I64_LIMIT <= x < I64_LIMIT
  type Digest = d: seq<byte> | |d| == 32 witness seq(32, _ => 0)

  const PUSH: byte := 0x01
  const ADD: byte := 0x02
  const MUL: byte := 0x03
  const STORE: byte := 0x04
  const LOAD: byte := 0x05
  const CREATE: byte := 0x0B
  const CALL: byte := 0x0C
  const RETURN: byte := 0x0D
  const SHA3: byte := 0x0E
  const BALANCE: byte := 0x0F
  const STOP: byte := 0xFF

  datatype Value =
    | Int(number: i64)
    | Bool(flag: bool)
    | Bytes(bytes: seq<byte>)
    | Address(address: Digest)
    | Contract(contract: ContractData)

  datatype ContractData = ContractData(code: seq<byte>, storage: map<Digest, Value>, balance: u64)

  datatype CallFrame = CallFrame(
    caller: Digest, address: Digest, value: u64, gasLimit: u64, code: seq<byte>, returnData: seq<byte>)

  datatype VMError =
    | StackUnderflow
    | StackOverflow
    | InvalidOpcode(opcode: byte)
    | AddressNotFound(address: u64)
    | ContractNotFound
    | GasLimitExceeded

  /** A run completes, returns an error, or panics (slice out of range, i64 overflow). */
  datatype Outcome = Done | Failed(error: VMError) | Trap

  /** A program and the 32-byte digest the machine hashes with. */
  datatype Machine = Machine(program: seq<byte>, digest: seq<byte> -> Digest)

  datatype State = State(
    stack: seq<Value>,
    memory: map<u64, Value>,
    pc: nat,
    gas: nat,
    callStack: seq<CallFrame>)

  datatype StepResult = Next(state: State) | Halt(outcome: Outcome, state: State)

  function Start(gasLimit: nat): State {
    State([], map[], 0, gasLimit, [])
  }

  function ZeroAddress(): Digest {
    seq(32, _ => 0)
  }

  function GasCost(opcode: byte): nat {
    match opcode
    case 0x01 => 3
    case 0x02 => 5
    case 0x03 => 5
    case 0x04 => 20
    case 0x05 => 20
    case 0x06 => 8
    case 0x07 => 10
    case 0x08 => 3
    case 0x09 => 3
    case 0x0A => 3
    case 0x0B => 400
    case 0x0C => 40
    case 0x0D => 5
    case 0x0E => 50
    case 0x0F => 20
    case _ => BASE_COST
  }

  /** `v as u64` and `v as usize` on a 64-bit target. */
  function AsU64(v: i64): u64 {
    if v < 0 then v + U64_LIMIT else v
  }

  /** `v as i64`. */
  function AsI64(v: u64): i64 {
    if v >= I64_LIMIT then v - U64_LIMIT else v
  }

  // ---------- Popping ----------

  function Rest(stack: seq<Value>): seq<Value> {
    if stack == [] then [] else stack[..|stack| - 1]
  }

  /** The integer on top, if that is what is there. Popping removes whatever is there. */
  function TopInt(stack: seq<Value>): Option<i64> {
    if stack != [] && stack[|stack| - 1].Int? then Some(stack[|stack| - 1].number) else None
  }

  function TopAddress(stack: seq<Value>): Option<Digest> {
    if stack != [] && stack[|stack| - 1].Address? then Some(stack[|stack| - 1].address) else None
  }

  /** Popping two integers: the operands (first popped last), or the stack where popping failed. */
  datatype Operands = Operands(below: i64, top: i64, stack: seq<Value>) | Missing(stack: seq<Value>)

  function PopTwo(stack: seq<Value>): Operands {
    var rest := Rest(stack);
    if TopInt(stack).None? || TopInt(rest).None? then Missing(if TopInt(stack).None? then rest else Rest(rest))
    else Operands(TopInt(rest).value, TopInt(stack).value, Rest(rest))
  }

  // ---------- Instructions, after their gas is paid ----------

  function Underflow(s: State, stack: seq<Value>): StepResult {
    Halt(Failed(StackUnderflow), s.(stack := stack))
  }

  function DoPush(m: Machine, s: State): StepResult {
    if s.pc + 1 >= |m.program| then Halt(Trap, s)
    else if |s.stack| >= STACK_LIMIT then Halt(Failed(StackOverflow), s)
    else Next(s.(stack := s.stack + [Int(m.program[s.pc + 1])], pc := s.pc + 2))
  }

  function Combine(opcode: byte, a: int, b: int): int {
    if opcode == MUL then a * b else a + b
  }

  function DoArithmetic(s: State, opcode: byte): StepResult {
    match PopTwo(s.stack)
    case Missing(stack) => Underflow(s, stack)
    case Operands(a, b, stack) =>
      if -I64_LIMIT <= Combine(opcode, a, b) < I64_LIMIT
      then Next(s.(stack := stack + [Int(Combine(opcode, a, b))], pc := s.pc + 1))
      else Halt(Trap, s.(stack := stack))
  }

  function DoStore(s: State): StepResult {
    var rest := Rest(s.stack);
    match TopInt(s.stack)
    case None => Underflow(s, rest)
    case Some(address) =>
      if rest == [] then Underflow(s, rest)
      else Next(s.(stack := Rest(rest), memory := s.memory[AsU64(address) := rest[|rest| - 1]], pc := s.pc + 1))
  }

  function DoLoad(s: State): StepResult {
    var rest := Rest(s.stack);
    match TopInt(s.stack)
    case None => Underflow(s, rest)
    case Some(address) =>
      if AsU64(address) !in s.memory then Halt(Failed(AddressNotFound(AsU64(address))), s.(stack := rest))
      else Next(s.(stack := rest + [s.memory[AsU64(address)]], pc := s.pc + 1))
  }

  function DoCreate(m: Machine, s: State): StepResult {
    match PopTwo(s.stack)
    case Missing(stack) => Underflow(s, stack)
    case Operands(codeSize, value, stack) =>
      var end := s.pc + 1 + AsU64(codeSize);
      if s.gas < CONTRACT_CREATION then Halt(Failed(GasLimitExceeded), s.(stack := stack))
      else
        var paid := s.(stack := stack, gas := s.gas - CONTRACT_CREATION);
        if end > |m.program| then Halt(Trap, paid)
        else
          var code := m.program[s.pc + 1..end];
          Next(paid.(stack := stack + [Address(m.digest(code)), Contract(ContractData(code, map[], AsU64(value)))],
                     pc := end))
  }

  /** The contract a digest names lives in memory at the digest's first byte. */
  function ContractAt(s: State, address: Digest): Option<ContractData> {
    if address[0] in s.memory && s.memory[address[0]].Contract? then Some(s.memory[address[0]].contract) else None
  }

  function DoCall(s: State): StepResult {
    var rest := Rest(s.stack);
    match TopAddress(s.stack)
    case None => Underflow(s, rest)
    case Some(address) =>
      match PopTwo(rest)
      case Missing(stack) => Underflow(s, stack)
      case Operands(gasLimit, value, stack) =>
        match ContractAt(s, address)
        case None => Halt(Failed(ContractNotFound), s.(stack := stack))
        case Some(contract) =>
          var frame := CallFrame(ZeroAddress(), address, AsU64(value), AsU64(gasLimit), contract.code, []);
          Next(s.(stack := stack, callStack := s.callStack + [frame], pc := s.pc + 1))
  }

  function DoReturn(m: Machine, s: State): StepResult {
    match PopTwo(s.stack)
    case Missing(stack) => Underflow(s, stack)
    case Operands(offset, size, stack) =>
      var popped := s.(stack := stack);
      if s.callStack == [] then Next(popped.(pc := s.pc + 1))
      else if AsU64(offset) + AsU64(size) > |m.program| then Halt(Trap, popped)
      else
        var last := |s.callStack| - 1;
        var data := m.program[AsU64(offset)..AsU64(offset) + AsU64(size)];
        Next(popped.(callStack := s.callStack[last := s.callStack[last].(returnData := data)], pc := s.pc + 1))
  }

  function DoSha3(m: Machine, s: State): StepResult {
    match PopTwo(s.stack)
    case Missing(stack) => Underflow(s, stack)
    case Operands(offset, size, stack) =>
      if AsU64(offset) + AsU64(size) > |m.program| then Halt(Trap, s.(stack := stack))
      else
        var data := m.program[AsU64(offset)..AsU64(offset) + AsU64(size)];
        Next(s.(stack := stack + [Bytes(m.digest(data))], pc := s.pc + 1))
  }

  function DoBalance(s: State): StepResult {
    var rest := Rest(s.stack);
    match TopAddress(s.stack)
    case None => Underflow(s, rest)
    case Some(address) =>
      match ContractAt(s, address)
      case None => Halt(Failed(ContractNotFound), s.(stack := rest))
      case Some(contract) => Next(s.(stack := rest + [Int(AsI64(contract.balance))], pc := s.pc + 1))
  }

  function Instruction(m: Machine, s: State, opcode: byte): (r: StepResult)
    requires s.pc < |m.program|
    ensures r.Next? ==> s.pc < r.state.pc <= |m.program|
  {
    if opcode == PUSH then DoPush(m, s)
    else if opcode == ADD || opcode == MUL then DoArithmetic(s, opcode)
    else if opcode == STORE then DoStore(s)
    else if opcode == LOAD then DoLoad(s)
    else if opcode == CREATE then DoCreate(m, s)
    else if opcode == CALL then DoCall(s)
    else if opcode == RETURN then DoReturn(m, s)
    else if opcode == SHA3 then DoSha3(m, s)
    else if opcode == BALANCE then DoBalance(s)
    else if opcode == STOP then Halt(Done, s)
    else Halt(Failed(InvalidOpcode(opcode)), s)
  }

  // ---------- One step and whole runs ----------

  function Step(m: Machine, s: State): (r: StepResult)
    requires s.pc < |m.program|
    ensures r.Next? ==> s.pc < r.state.pc <= |m.program|
  {
    var opcode := m.program[s.pc];
    if s.gas < GasCost(opcode) then Halt(Failed(GasLimitExceeded), s)
    else Instruction(m, s.(gas := s.gas - GasCost(opcode)), opcode)
  }

  /** The state once the instruction at the offset is paid for. */
  function Paid(m: Machine, s: State): State
    requires s.pc < |m.program| && s.gas >= GasCost(m.program[s.pc])
  {
    s.(gas := s.gas - GasCost(m.program[s.pc]))
  }

  lemma StepIsInstruction(m: Machine, s: State)
    requires s.pc < |m.program| && s.gas >= GasCost(m.program[s.pc])
    ensures Step(m, s) == Instruction(m, Paid(m, s), m.program[s.pc])
  {
  }

  /** Execution until the end of the program, a STOP, an error or a panic. */
  function Run(m: Machine, s: State): (Outcome, State)
    decreases |m.program| - s.pc
  {
    if s.pc >= |m.program| then (Done, s)
    else
      match Step(m, s)
      case Next(t) => Run(m, t)
      case Halt(outcome, t) => (outcome, t)
  }

  // ---------- The machine object ----------

  class VM {
    const machine: Machine
    var stack: seq<Value>
    var memory: map<u64, Value>
    var programCounter: nat
    var gasRemaining: nat
    var callStack: seq<CallFrame>

    function View(): State
      reads this
    {
      State(stack, memory, programCounter, gasRemaining, callStack)
    }

    /** How an instruction method reports: no outcome means execution goes on. */
    function Reported(outcome: Option<Outcome>): StepResult
      reads this
    {
      match outcome
      case None => Next(View())
      case Some(o) => Halt(o, View())
    }

    constructor (program: seq<byte>, digest: seq<byte> -> Digest)
      ensures machine == Machine(program, digest) && View() == Start(1_000_000)
    {
      machine := Machine(program, digest);
      stack, memory, programCounter, gasRemaining, callStack := [], map[], 0, 1_000_000, [];
    }

    method UseGas(amount: nat) returns (enough: bool)
      modifies this`gasRemaining
      ensures enough <==> old(gasRemaining) >= amount
      ensures gasRemaining == if enough then old(gasRemaining) - amount else old(gasRemaining)
    {
      if gasRemaining < amount {
        return false;
      }
      gasRemaining := gasRemaining - amount;
      return true;
    }

    method PopInt() returns (v: Option<i64>)
      modifies this`stack
      ensures v == TopInt(old(stack)) && stack == Rest(old(stack))
    {
      v := None;
      if stack != [] {
        var top := stack[|stack| - 1];
        stack := stack[..|stack| - 1];
        if top.Int? {
          v := Some(top.number);
        }
      }
    }

    method PopAddress() returns (a: Option<Digest>)
      modifies this`stack
      ensures a == TopAddress(old(stack)) && stack == Rest(old(stack))
    {
      a := None;
      if stack != [] {
        var top := stack[|stack| - 1];
        stack := stack[..|stack| - 1];
        if top.Address? {
          a := Some(top.address);
        }
      }
    }

    /** Pops the top operand, then the one below; stops at the first that is not an integer. */
    method PopOperands() returns (below: i64, top: i64, ok: bool)
      modifies this`stack
      ensures PopTwo(old(stack)) == if ok then Operands(below, top, stack) else Missing(stack)
    {
      below, top, ok := 0, 0, false;
      var b := PopInt();
      if b.None? {
        return;
      }
      var a := PopInt();
      if a.None? {
        return;
      }
      below, top, ok := a.value, b.value, true;
    }

    method Push() returns (outcome: Option<Outcome>)
      modifies this
      ensures Reported(outcome) == DoPush(machine, old(View()))
    {
      if programCounter + 1 >= |machine.program| {
        return Some(Trap);
      }
      var value := machine.program[programCounter + 1];
      if |stack| >= STACK_LIMIT {
        return Some(Failed(StackOverflow));
      }
      stack := stack + [Int(value)];
      programCounter := programCounter + 2;
      return None;
    }

    method Arithmetic(opcode: byte) returns (outcome: Option<Outcome>)
      modifies this
      ensures Reported(outcome) == DoArithmetic(old(View()), opcode)
    {
      var a, b, ok := PopOperands();
      if !ok {
        return Some(Failed(StackUnderflow));
      }
      var result := Combine(opcode, a, b);
      if !(-I64_LIMIT <= result < I64_LIMIT) {
        return Some(Trap);
      }
      stack := stack + [Int(result)];
      programCounter := programCounter + 1;
      return None;
    }

    method Store() returns (outcome: Option<Outcome>)
      modifies this
      ensures Reported(outcome) == DoStore(old(View()))
    {
      var address := PopInt();
      if address.None? || stack == [] {
        return Some(Failed(StackUnderflow));
      }
      var value := stack[|stack| - 1];
      stack := stack[..|stack| - 1];
      memory := memory[AsU64(address.value) := value];
      programCounter := programCounter + 1;
      return None;
    }

    method Load() returns (outcome: Option<Outcome>)
      modifies this
      ensures Reported(outcome) == DoLoad(old(View()))
    {
      var address := PopInt();
      if address.None? {
        return Some(Failed(StackUnderflow));
      }
      if AsU64(address.value) !in memory {
        return Some(Failed(AddressNotFound(AsU64(address.value))));
      }
      stack := stack + [memory[AsU64(address.value)]];
      programCounter := programCounter + 1;
      return None;
    }

    method Create() returns (outcome: Option<Outcome>)
      modifies this
      ensures Reported(outcome) == DoCreate(machine, old(View()))
    {
      var codeSize, value, ok := PopOperands();
      if !ok {
        return Some(Failed(StackUnderflow));
      }
      var paid := UseGas(CONTRACT_CREATION);
      if !paid {
        return Some(Failed(GasLimitExceeded));
      }
      var end := programCounter + 1 + AsU64(codeSize);
      if end > |machine.program| {
        return Some(Trap);
      }
      var code := machine.program[programCounter + 1..end];
      var created := [Address(machine.digest(code)), Contract(ContractData(code, map[], AsU64(value)))];
      stack := stack + created;
      programCounter := end;
      return None;
    }

    method Call() returns (outcome: Option<Outcome>)
      modifies this
      ensures Reported(outcome) == DoCall(old(View()))
    {
      var address := PopAddress();
      if address.None? {
        return Some(Failed(StackUnderflow));
      }
      var gasLimit, value, ok := PopOperands();
      if !ok {
        return Some(Failed(StackUnderflow));
      }
      var contract := ContractAt(View(), address.value);
      if contract.None? {
        return Some(Failed(ContractNotFound));
      }
      var frame := CallFrame(ZeroAddress(), address.value, AsU64(value), AsU64(gasLimit), contract.value.code, []);
      callStack := callStack + [frame];
      programCounter := programCounter + 1;
      return None;
    }

    method Return() returns (outcome: Option<Outcome>)
      modifies this
      ensures Reported(outcome) == DoReturn(machine, old(View()))
    {
      var offset, size, ok := PopOperands();
      if !ok {
        return Some(Failed(StackUnderflow));
      }
      if callStack != [] {
        var from, to := AsU64(offset), AsU64(offset) + AsU64(size);
        if to > |machine.program| {
          return Some(Trap);
        }
        var last := |callStack| - 1;
        callStack := callStack[last := callStack[last].(returnData := machine.program[from..to])];
      }
      programCounter := programCounter + 1;
      return None;
    }

    method Sha3() returns (outcome: Option<Outcome>)
      modifies this
      ensures Reported(outcome) == DoSha3(machine, old(View()))
    {
      var offset, size, ok := PopOperands();
      if !ok {
        return Some(Failed(StackUnderflow));
      }
      var from, to := AsU64(offset), AsU64(offset) + AsU64(size);
      if to > |machine.program| {
        return Some(Trap);
      }
      stack := stack + [Bytes(machine.digest(machine.program[from..to]))];
      programCounter := programCounter + 1;
      return None;
    }

    method Balance() returns (outcome: Option<Outcome>)
      modifies this
      ensures Reported(outcome) == DoBalance(old(View()))
    {
      var address := PopAddress();
      if address.None? {
        return Some(Failed(StackUnderflow));
      }
      var contract := ContractAt(View(), address.value);
      if contract.None? {
        return Some(Failed(ContractNotFound));
      }
      stack := stack + [Int(AsI64(contract.value.balance))];
      programCounter := programCounter + 1;
      return None;
    }

    method ExecuteInstruction(opcode: byte) returns (outcome: Option<Outcome>)
      requires programCounter < |machine.program|
      modifies this
      ensures Reported(outcome) == Instruction(machine, old(View()), opcode)
    {
      if opcode == PUSH { outcome := Push(); }
      else if opcode == ADD || opcode == MUL { outcome := Arithmetic(opcode); }
      else if opcode == STORE { outcome := Store(); }
      else if opcode == LOAD { outcome := Load(); }
      else if opcode == CREATE { outcome := Create(); }
      else if opcode == CALL { outcome := Call(); }
      else if opcode == RETURN { outcome := Return(); }
      else if opcode == SHA3 { outcome := Sha3(); }
      else if opcode == BALANCE { outcome := Balance(); }
      else if opcode == STOP { outcome := Some(Done); }
      else { outcome := Some(Failed(InvalidOpcode(opcode))); }
    }

    /** One turn of the loop: pay for the instruction, then carry it out. */
    method ExecuteNext() returns (halted: Option<Outcome>)
      requires programCounter < |machine.program|
      modifies this
      ensures Reported(halted) == Step(machine, old(View()))
    {
      ghost var before := View();
      var opcode := machine.program[programCounter];
      var paid := UseGas(GasCost(opcode));
      if !paid {
        return Some(Failed(GasLimitExceeded));
      }
      StepIsInstruction(machine, before);
      assert View() == Paid(machine, before);
      halted := ExecuteInstruction(opcode);
    }

    /** The interpreter loop. */
    method Execute() returns (outcome: Outcome)
      modifies this
      ensures (outcome, View()) == Run(machine, old(View()))
    {
      while programCounter < |machine.program|
        invariant Run(machine, View()) == Run(machine, old(View()))
        decreases |machine.program| - programCounter
      {
        ghost var before := View();
        var halted := ExecuteNext();
        RunUnfolds(machine, before);
        if halted.Some? {
          return halted.value;
        }
      }
      return Done;
    }
  }

  /** The run from where a step left the machine. */
  function Continued(m: Machine, r: StepResult): (Outcome, State) {
    if r.Next? then Run(m, r.state) else (r.outcome, r.state)
  }

  lemma RunUnfolds(m: Machine, s: State)
    requires s.pc < |m.program|
    ensures Run(m, s) == Continued(m, Step(m, s))
  {
  }
}
