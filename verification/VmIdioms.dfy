/** Short programs whose effect ties several instructions together, their operands computed by any
    code: what they do when they complete, and when they do not. */
module VmIdioms {
  import opened Collections
  import opened Vm
  import opened VmPrograms

  /** An instruction that halts ends the run. */
  lemma InstructionHalts(m: Machine, s: State, opcode: byte, outcome: Outcome, t: State)
    requires At(m, s.pc, [opcode]) && s.gas >= GasCost(opcode)
    requires Instruction(m, s.(gas := s.gas - GasCost(opcode)), opcode) == Halt(outcome, t)
    ensures Run(m, s) == (outcome, t)
  {
    AtByte(m, s.pc, [opcode], 0);
    StepIsInstruction(m, s);
    assert Paid(m, s) == s.(gas := s.gas - GasCost(opcode));
    assert Step(m, s) == Halt(outcome, t);
    RunUnfolds(m, s);
  }

  // ---------- Operands ----------

  /** What an integer the machine can push to is: VmRuns shows that no run holds a negative one. */
  type Amount = x: int | 0 <= x < I64_LIMIT

  /** Code for a value, with its gas and the stack slots it needs. */
  datatype Operand = Operand(code: seq<byte>, value: Amount, cost: nat, height: nat)

  function Given(o: Operand, s: State): State
    requires s.gas >= o.cost
  {
    s.(stack := s.stack + [Int(o.value)], pc := s.pc + |o.code|, gas := s.gas - o.cost)
  }

  predicate Covers(s: State, o: Operand) {
    s.gas >= o.cost && |s.stack| + o.height <= STACK_LIMIT
  }

  /** Wherever the code stands, and whatever state it starts from that covers it, it pushes the value. */
  ghost predicate Computes(m: Machine, o: Operand) {
    forall s: State {:trigger Leads(m, s, Given(o, s))} | At(m, s.pc, o.code) && Covers(s, o) ::
      Leads(m, s, Given(o, s))
  }

  /** Every expression without overflow is such an operand. */
  lemma ExpressionComputes(m: Machine, e: Expr)
    requires Fits(e)
    ensures Computes(m, Operand(Code(e), Eval(e), Cost(e), Height(e)))
  {
    var o := Operand(Code(e), Eval(e), Cost(e), Height(e));
    forall s: State | At(m, s.pc, o.code) && Covers(s, o)
      ensures Leads(m, s, Given(o, s))
    {
      CodeRuns(m, s, e);
      assert Evaluated(e, s) == Given(o, s);
    }
  }

  lemma OperandRuns(m: Machine, s: State, o: Operand)
    requires At(m, s.pc, o.code) && Computes(m, o) && Covers(s, o)
    ensures Leads(m, s, Given(o, s))
  {
  }

  /** Both operands can be computed, one after the other. */
  ghost predicate CoversBoth(m: Machine, s: State, a: Operand, b: Operand) {
    Computes(m, a) && Computes(m, b) && Covers(s, a) && Covers(Given(a, s), b)
  }

  function BothGiven(a: Operand, b: Operand, s: State): State
    requires s.gas >= a.cost + b.cost
  {
    s.(stack := s.stack + [Int(a.value), Int(b.value)],
       pc := s.pc + |a.code + b.code|,
       gas := s.gas - a.cost - b.cost)
  }

  lemma BothRun(m: Machine, s: State, a: Operand, b: Operand)
    requires At(m, s.pc, a.code + b.code) && CoversBoth(m, s, a, b)
    ensures Leads(m, s, BothGiven(a, b, s))
  {
    AtSplit(m, s.pc, a.code, b.code);
    var s1 := Given(a, s);
    OperandRuns(m, s, a);
    OperandRuns(m, s1, b);
    GivenTwice(a, b, s);
    LeadsThrough(m, s, s1, BothGiven(a, b, s));
  }

  lemma GivenTwice(a: Operand, b: Operand, s: State)
    requires s.gas >= a.cost + b.cost
    ensures Given(b, Given(a, s)) == BothGiven(a, b, s)
  {
    assert s.stack + [Int(a.value)] + [Int(b.value)] == s.stack + [Int(a.value), Int(b.value)];
  }

  // ---------- Memory ----------

  function StoredAt(s: State, stack: seq<Value>, value: Value, address: u64): State
    requires s.gas >= 20
  {
    s.(stack := stack, memory := s.memory[address := value], pc := s.pc + 1, gas := s.gas - 20)
  }

  lemma StoreRuns(m: Machine, s: State, stack: seq<Value>, value: Value, address: Amount)
    requires At(m, s.pc, [STORE]) && s.stack == stack + [value] + [Int(address)] && s.gas >= 20
    ensures Leads(m, s, StoredAt(s, stack, value, address))
  {
    assert Rest(s.stack) == stack + [value];
    assert Rest(stack + [value]) == stack;
    assert DoStore(s.(gas := s.gas - 20)) == Next(StoredAt(s, stack, value, address));
    InstructionLeads(m, s, STORE, StoredAt(s, stack, value, address));
  }

  lemma LoadRuns(m: Machine, s: State, stack: seq<Value>, address: Amount)
    requires At(m, s.pc, [LOAD]) && s.stack == stack + [Int(address)] && s.gas >= 20
    ensures if address in s.memory
            then Leads(m, s, s.(stack := stack + [s.memory[address]], pc := s.pc + 1, gas := s.gas - 20))
            else Run(m, s).0 == Failed(AddressNotFound(address))
  {
    assert Rest(s.stack) == stack;
    var paid := s.(gas := s.gas - 20);
    if address in s.memory {
      var t := s.(stack := stack + [s.memory[address]], pc := s.pc + 1, gas := s.gas - 20);
      assert DoLoad(paid) == Next(t);
      InstructionLeads(m, s, LOAD, t);
    } else {
      InstructionHalts(m, s, LOAD, Failed(AddressNotFound(address)), paid.(stack := stack));
    }
  }

  /** An operand and a STORE store what is below at the operand's value. */
  lemma OperandStores(m: Machine, s: State, stack: seq<Value>, value: Value, to: Operand)
    requires At(m, s.pc, to.code + [STORE]) && s.stack == stack + [value]
    requires Computes(m, to) && Covers(s, to) && s.gas >= to.cost + 20
    ensures Leads(m, s, StoredAt(Given(to, s), stack, value, to.value))
  {
    AtSplit(m, s.pc, to.code, [STORE]);
    var s1 := Given(to, s);
    OperandRuns(m, s, to);
    StoreRuns(m, s1, stack, value, to.value);
    LeadsThrough(m, s, s1, StoredAt(s1, stack, value, to.value));
  }

  function LoadedAt(s: State, from: Operand, value: Value): State
    requires s.gas >= from.cost + 20
  {
    s.(stack := s.stack + [value], pc := s.pc + |from.code| + 1, gas := s.gas - from.cost - 20)
  }

  /** An operand and a LOAD push what memory holds at the operand's value. */
  lemma OperandLoads(m: Machine, s: State, from: Operand)
    requires At(m, s.pc, from.code + [LOAD]) && s.gas >= from.cost + 20
    requires Computes(m, from) && Covers(s, from)
    ensures if from.value in s.memory then Leads(m, s, LoadedAt(s, from, s.memory[from.value]))
            else Run(m, s).0 == Failed(AddressNotFound(from.value))
  {
    AtSplit(m, s.pc, from.code, [LOAD]);
    var s1 := Given(from, s);
    OperandRuns(m, s, from);
    LoadRuns(m, s1, s.stack, from.value);
    if from.value in s.memory {
      var t := LoadedAt(s, from, s.memory[from.value]);
      assert t == s1.(stack := s.stack + [s1.memory[from.value]], pc := s1.pc + 1, gas := s1.gas - 20);
      LeadsThrough(m, s, s1, t);
    } else {
      LeadsRuns(m, s, s1);
    }
  }

  /** The state after storing `value`, the top of `s`, at one operand's value and loading another's. */
  function Reloaded(s: State, stack: seq<Value>, value: Value, to: Operand, from: Operand): State
    requires from.value in s.memory[to.value := value]
    requires s.gas >= to.cost + from.cost + 40
  {
    var memory := s.memory[to.value := value];
    s.(stack := stack + [memory[from.value]], memory := memory,
       pc := s.pc + |to.code| + |from.code| + 2, gas := s.gas - to.cost - from.cost - 40)
  }

  lemma LoadedIsReloaded(s: State, stack: seq<Value>, value: Value, to: Operand, from: Operand)
    requires from.value in s.memory[to.value := value]
    requires s.gas >= to.cost + from.cost + 40
    ensures var s1 := StoredAt(Given(to, s), stack, value, to.value);
            && s1.memory == s.memory[to.value := value]
            && LoadedAt(s1, from, s1.memory[from.value]) == Reloaded(s, stack, value, to, from)
  {
  }

  /** Storing the top value at one computed address and then loading another: the addresses being
      equal in value, the stored value comes back, however they are computed; otherwise what was in
      memory before, and an error if nothing was. */
  lemma StoreThenLoad(m: Machine, s: State, stack: seq<Value>, value: Value, to: Operand, from: Operand)
    requires At(m, s.pc, (to.code + [STORE]) + (from.code + [LOAD]))
    requires s.stack == stack + [value] && Computes(m, to) && Computes(m, from) && Covers(s, to)
    requires |stack| + from.height <= STACK_LIMIT && s.gas >= to.cost + from.cost + 40
    ensures to.value == from.value || from.value in s.memory ==>
              && Leads(m, s, Reloaded(s, stack, value, to, from))
              && Reloaded(s, stack, value, to, from).stack
                 == stack + [if to.value == from.value then value else s.memory[from.value]]
    ensures to.value != from.value && from.value !in s.memory ==>
              Run(m, s).0 == Failed(AddressNotFound(from.value))
  {
    AtSplit(m, s.pc, to.code + [STORE], from.code + [LOAD]);
    var s1 := StoredAt(Given(to, s), stack, value, to.value);
    OperandStores(m, s, stack, value, to);
    assert s1.pc == s.pc + |to.code + [STORE]|;
    assert s1.stack == stack && s1.gas == s.gas - to.cost - 20;
    assert Covers(s1, from);
    OperandLoads(m, s1, from);
    if to.value == from.value || from.value in s.memory {
      LoadedIsReloaded(s, stack, value, to, from);
      LeadsThrough(m, s, s1, Reloaded(s, stack, value, to, from));
    } else {
      assert from.value !in s1.memory;
      LeadsRuns(m, s, s1);
    }
  }

  // ---------- Nothing to store ----------

  /** On an empty stack an expression and a STORE never store, whatever follows: the value computed
      is taken for the address. The run underflows exactly when it gets that far. */
  lemma NothingLeftToStore(m: Machine, s: State, e: Expr)
    requires At(m, s.pc, Code(e) + [STORE]) && s.stack == []
    ensures var (outcome, t) := Run(m, s);
            && outcome != Done && t.memory == s.memory
            && (outcome == Failed(StackUnderflow) <==> Affordable(e, s) && s.gas >= Cost(e) + 20)
            && (outcome == Failed(StackUnderflow) ==>
                  t == s.(pc := s.pc + |Code(e)|, gas := s.gas - Cost(e) - 20))
  {
    AtSplit(m, s.pc, Code(e), [STORE]);
    if Affordable(e, s) {
      var s1 := Evaluated(e, s);
      CodeRuns(m, s, e);
      LoneStore(m, s, s1);
    } else {
      CodeFails(m, s, e);
    }
  }

  lemma LoneStore(m: Machine, s: State, s1: State)
    requires Leads(m, s, s1) && At(m, s1.pc, [STORE]) && |s1.stack| == 1 && s1.stack[0].Int?
    ensures var (outcome, t) := Run(m, s);
            && outcome == Failed(if s1.gas >= 20 then StackUnderflow else GasLimitExceeded)
            && t.memory == s1.memory
            && (s1.gas >= 20 ==> t == s1.(stack := [], gas := s1.gas - 20))
  {
    LeadsRuns(m, s, s1);
    AtByte(m, s1.pc, [STORE], 0);
    RunUnfolds(m, s1);
  }

  /** The sample program computes (5 + 3) * 2 and then means to store it at address 0 with the
      operand bytes 04 00. It never stores: with gas for it, it underflows. */
  lemma SampleProgramUnderflows(digest: seq<byte> -> Digest, gas: nat)
    ensures var program := [0x01, 5, 0x01, 3, 0x02, 0x01, 2, 0x03, 0x04, 0x00, 0xFF];
            var (outcome, t) := Run(Machine(program, digest), Start(gas));
            && outcome != Done && t.memory == map[]
            && (outcome == Failed(StackUnderflow) <==> gas >= 39)
            && (gas >= 39 ==> t == State([], map[], 8, gas - 39, []))
  {
    var sum := Plus(Leaf(5), Leaf(3));
    var e := Times(sum, Leaf(2));
    assert Code(sum) == [0x01, 5, 0x01, 3, 0x02];
    assert Code(e) == [0x01, 5, 0x01, 3, 0x02, 0x01, 2, 0x03];
    var program := [0x01, 5, 0x01, 3, 0x02, 0x01, 2, 0x03, 0x04, 0x00, 0xFF];
    var m := Machine(program, digest);
    assert program[..9] == Code(e) + [STORE];
    assert forall i | 0 <= i < 9 :: program[i] == program[..9][i];
    assert Eval(sum) == 8 && Height(sum) == 2;
    NothingLeftToStore(m, Start(gas), e);
  }

  // ---------- Contracts ----------

  /** Creates a contract from inline code, with a computed balance, and stores it at a computed slot. */
  datatype Deployment = Deployment(size: Operand, balance: Operand, code: seq<byte>, slot: Operand)

  function DeployCode(d: Deployment): seq<byte> {
    (d.size.code + d.balance.code) + (([CREATE] + d.code) + (d.slot.code + [STORE]))
  }

  function DeployCost(d: Deployment): nat {
    d.size.cost + d.balance.cost + 32400 + (d.slot.cost + 20)
  }

  /** The first operand is the code's size, and gas and stack suffice. */
  ghost predicate Deployable(m: Machine, d: Deployment, s: State) {
    && d.size.value == |d.code|
    && CoversBoth(m, s, d.size, d.balance)
    && Computes(m, d.slot) && |s.stack| + 2 + d.slot.height <= STACK_LIMIT
    && s.gas >= DeployCost(d)
  }

  function Made(d: Deployment): ContractData {
    ContractData(d.code, map[], d.balance.value)
  }

  /** The address on top of the contract. */
  function CreatedState(m: Machine, s: State, d: Deployment): State
    requires s.gas >= d.size.cost + d.balance.cost + 32400
  {
    s.(stack := s.stack + [Address(m.digest(d.code)), Contract(Made(d))],
       pc := s.pc + |d.size.code + d.balance.code| + 1 + |d.code|,
       gas := s.gas - d.size.cost - d.balance.cost - 32400)
  }

  /** The contract in memory, and its address on the stack. */
  function Deployed(m: Machine, s: State, d: Deployment): State
    requires s.gas >= DeployCost(d)
  {
    s.(stack := s.stack + [Address(m.digest(d.code))],
       memory := s.memory[d.slot.value := Contract(Made(d))],
       pc := s.pc + |DeployCode(d)|,
       gas := s.gas - DeployCost(d))
  }

  lemma CreateStep(m: Machine, s: State, stack: seq<Value>, code: seq<byte>, balance: Amount)
    requires |code| < I64_LIMIT
    requires PopTwo(s.stack) == Operands(|code|, balance, stack)
    requires At(m, s.pc + 1, code) && s.gas >= 32000
    ensures DoCreate(m, s)
         == Next(s.(stack := stack + [Address(m.digest(code)), Contract(ContractData(code, map[], balance))],
                    pc := s.pc + 1 + |code|, gas := s.gas - 32000))
  {
    assert m.program[s.pc + 1..s.pc + 1 + |code|] == code;
  }

  lemma CreatesAt(m: Machine, s: State, stack: seq<Value>, code: seq<byte>, balance: Amount)
    requires |code| < I64_LIMIT
    requires At(m, s.pc, [CREATE] + code) && s.gas >= 32400
    requires s.stack == stack + [Int(|code|), Int(balance)]
    ensures Leads(m, s, s.(stack := stack + [Address(m.digest(code)), Contract(ContractData(code, map[], balance))],
                           pc := s.pc + 1 + |code|, gas := s.gas - 32400))
  {
    AtSplit(m, s.pc, [CREATE], code);
    PopTwoOfPair(stack, |code|, balance);
    var paid := s.(gas := s.gas - 400);
    CreateStep(m, paid, stack, code, balance);
    var t := s.(stack := stack + [Address(m.digest(code)), Contract(ContractData(code, map[], balance))],
                pc := s.pc + 1 + |code|, gas := s.gas - 32400);
    assert DoCreate(m, paid) == Next(t);
    InstructionLeads(m, s, CREATE, t);
  }

  lemma CreateRuns(m: Machine, s: State, d: Deployment)
    requires At(m, s.pc, (d.size.code + d.balance.code) + ([CREATE] + d.code)) && Deployable(m, d, s)
    ensures Leads(m, s, CreatedState(m, s, d))
  {
    AtSplit(m, s.pc, d.size.code + d.balance.code, [CREATE] + d.code);
    var s1 := BothGiven(d.size, d.balance, s);
    BothRun(m, s, d.size, d.balance);
    CreatesAt(m, s1, s.stack, d.code, d.balance.value);
    CreatedFromOperands(m, s, d);
    LeadsThrough(m, s, s1, CreatedState(m, s, d));
  }

  lemma CreatedFromOperands(m: Machine, s: State, d: Deployment)
    requires Deployable(m, d, s)
    ensures var s1 := BothGiven(d.size, d.balance, s);
            CreatedState(m, s, d) == s1.(stack := s.stack + [Address(m.digest(d.code)), Contract(Made(d))],
                                         pc := s1.pc + 1 + |d.code|, gas := s1.gas - 32400)
  {
  }

  lemma DeployRuns(m: Machine, s: State, d: Deployment)
    requires At(m, s.pc, DeployCode(d)) && Deployable(m, d, s)
    ensures Leads(m, s, Deployed(m, s, d))
  {
    DeployCodeSplits(m, s.pc, d);
    var s1 := CreatedState(m, s, d);
    CreateRuns(m, s, d);
    var stack := s.stack + [Address(m.digest(d.code))];
    assert s1.stack == stack + [Contract(Made(d))];
    assert Covers(s1, d.slot);
    OperandStores(m, s1, stack, Contract(Made(d)), d.slot);
    var t := Deployed(m, s, d);
    assert StoredAt(Given(d.slot, s1), stack, Contract(Made(d)), d.slot.value) == t;
    LeadsThrough(m, s, s1, t);
  }

  lemma DeployCodeSplits(m: Machine, pc: nat, d: Deployment)
    requires At(m, pc, DeployCode(d))
    ensures At(m, pc, (d.size.code + d.balance.code) + ([CREATE] + d.code))
    ensures At(m, pc + |d.size.code + d.balance.code| + 1 + |d.code|, d.slot.code + [STORE])
  {
    var operands, create, store := d.size.code + d.balance.code, [CREATE] + d.code, d.slot.code + [STORE];
    assert DeployCode(d) == (operands + create) + store;
    AtSplit(m, pc, operands + create, store);
  }

  /** What the deployed address finds: the new contract if the slot is the address's first byte,
      and otherwise whatever was to be found there before. */
  function FoundAfter(m: Machine, s: State, d: Deployment): Option<ContractData> {
    if d.slot.value == m.digest(d.code)[0] then Some(Made(d)) else ContractAt(s, m.digest(d.code))
  }

  lemma DeployedIsFound(m: Machine, s: State, d: Deployment)
    requires Deployable(m, d, s)
    ensures ContractAt(Deployed(m, s, d), m.digest(d.code)) == FoundAfter(m, s, d)
  {
  }

  lemma BalanceRuns(m: Machine, s: State, stack: seq<Value>, address: Digest)
    requires At(m, s.pc, [BALANCE]) && s.stack == stack + [Address(address)] && s.gas >= 20
    ensures var found := ContractAt(s, address);
            if found.Some?
            then Leads(m, s, s.(stack := stack + [Int(AsI64(found.value.balance))], pc := s.pc + 1, gas := s.gas - 20))
            else Run(m, s).0 == Failed(ContractNotFound)
  {
    assert Rest(s.stack) == stack;
    var paid := s.(gas := s.gas - 20);
    var found := ContractAt(s, address);
    assert ContractAt(paid, address) == found;
    if found.Some? {
      var t := s.(stack := stack + [Int(AsI64(found.value.balance))], pc := s.pc + 1, gas := s.gas - 20);
      assert DoBalance(paid) == Next(t);
      InstructionLeads(m, s, BALANCE, t);
    } else {
      InstructionHalts(m, s, BALANCE, Failed(ContractNotFound), paid.(stack := stack));
    }
  }

  function BalanceRead(m: Machine, s: State, d: Deployment, found: ContractData): State
    requires s.gas >= DeployCost(d) + 20
  {
    Deployed(m, s, d).(stack := s.stack + [Int(AsI64(found.balance))],
                       pc := s.pc + |DeployCode(d)| + 1, gas := s.gas - DeployCost(d) - 20)
  }

  /** Asking for the balance of the address just deployed reads the computed balance if the contract
      was stored at the address's first byte; otherwise it reads that of a contract that was already
      there, or fails if there is none. */
  lemma DeployThenBalance(m: Machine, s: State, d: Deployment)
    requires At(m, s.pc, DeployCode(d) + [BALANCE]) && Deployable(m, d, s) && s.gas >= DeployCost(d) + 20
    ensures var found := FoundAfter(m, s, d);
            if found.Some? then Leads(m, s, BalanceRead(m, s, d, found.value))
            else Run(m, s).0 == Failed(ContractNotFound)
    ensures d.slot.value == m.digest(d.code)[0] ==>
              BalanceRead(m, s, d, FoundAfter(m, s, d).value).stack == s.stack + [Int(d.balance.value)]
  {
    AtSplit(m, s.pc, DeployCode(d), [BALANCE]);
    var s1 := Deployed(m, s, d);
    DeployRuns(m, s, d);
    DeployedIsFound(m, s, d);
    BalanceRuns(m, s1, s.stack, m.digest(d.code));
    var found := FoundAfter(m, s, d);
    if found.Some? {
      var t := BalanceRead(m, s, d, found.value);
      assert t == s1.(stack := s.stack + [Int(AsI64(found.value.balance))], pc := s1.pc + 1, gas := s1.gas - 20);
      LeadsThrough(m, s, s1, t);
    } else {
      LeadsRuns(m, s, s1);
    }
  }

  /** The frame a call opens, its caller given as 32 zero bytes. */
  function FrameFor(address: Digest, contract: ContractData, gasLimit: u64, value: u64): CallFrame {
    CallFrame(seq(32, _ => 0), address, value, gasLimit, contract.code, [])
  }

  lemma CallStep(s: State, stack: seq<Value>, address: Digest, gasLimit: Amount, value: Amount)
    requires s.stack == stack + [Int(gasLimit), Int(value)] + [Address(address)]
    ensures var found := ContractAt(s, address);
            DoCall(s)
            == if found.Some?
               then Next(s.(stack := stack,
                            callStack := s.callStack + [FrameFor(address, found.value, gasLimit, value)],
                            pc := s.pc + 1))
               else Halt(Failed(ContractNotFound), s.(stack := stack))
  {
    assert Rest(s.stack) == stack + [Int(gasLimit), Int(value)];
    PopTwoOfPair(stack, gasLimit, value);
  }

  lemma CallRuns(m: Machine, s: State, stack: seq<Value>, address: Digest, gasLimit: Amount, value: Amount)
    requires At(m, s.pc, [CALL]) && s.gas >= 40
    requires s.stack == stack + [Int(gasLimit), Int(value)] + [Address(address)]
    ensures var found := ContractAt(s, address);
            if found.Some?
            then Leads(m, s, s.(stack := stack,
                                callStack := s.callStack + [FrameFor(address, found.value, gasLimit, value)],
                                pc := s.pc + 1, gas := s.gas - 40))
            else Run(m, s).0 == Failed(ContractNotFound)
  {
    var paid := s.(gas := s.gas - 40);
    CallStep(paid, stack, address, gasLimit, value);
    var found := ContractAt(s, address);
    assert ContractAt(paid, address) == found;
    if found.Some? {
      InstructionLeads(m, s, CALL, DoCall(paid).state);
    } else {
      InstructionHalts(m, s, CALL, Failed(ContractNotFound), paid.(stack := stack));
    }
  }

  /** The state once a call of the deployed address has opened its frame, the gas limit and value
      computed before the deployment. */
  function CalledState(
      m: Machine, s: State, d: Deployment, gasLimit: Operand, value: Operand, found: ContractData): State
    requires s.gas >= gasLimit.cost + value.cost + DeployCost(d) + 40
  {
    s.(memory := s.memory[d.slot.value := Contract(Made(d))],
       callStack := s.callStack + [FrameFor(m.digest(d.code), found, gasLimit.value, value.value)],
       pc := s.pc + |gasLimit.code + value.code| + |DeployCode(d)| + 1,
       gas := s.gas - gasLimit.cost - value.cost - DeployCost(d) - 40)
  }

  /** The same with the operands already on the stack. */
  function CalledFrom(
      m: Machine, s: State, stack: seq<Value>, d: Deployment, gasLimit: u64, value: u64, found: ContractData): State
    requires s.gas >= DeployCost(d) + 40
  {
    s.(stack := stack,
       memory := s.memory[d.slot.value := Contract(Made(d))],
       callStack := s.callStack + [FrameFor(m.digest(d.code), found, gasLimit, value)],
       pc := s.pc + |DeployCode(d)| + 1,
       gas := s.gas - DeployCost(d) - 40)
  }

  lemma DeployedIsCalled(m: Machine, s: State, stack: seq<Value>, d: Deployment, gasLimit: Amount, value: Amount)
    requires At(m, s.pc, DeployCode(d) + [CALL]) && Deployable(m, d, s) && s.gas >= DeployCost(d) + 40
    requires s.stack == stack + [Int(gasLimit), Int(value)]
    ensures var found := FoundAfter(m, s, d);
            if found.Some? then Leads(m, s, CalledFrom(m, s, stack, d, gasLimit, value, found.value))
            else Run(m, s).0 == Failed(ContractNotFound)
  {
    AtSplit(m, s.pc, DeployCode(d), [CALL]);
    var s1 := Deployed(m, s, d);
    DeployRuns(m, s, d);
    DeployedIsFound(m, s, d);
    CallRuns(m, s1, stack, m.digest(d.code), gasLimit, value);
    var found := FoundAfter(m, s, d);
    if found.Some? {
      var t := CalledFrom(m, s, stack, d, gasLimit, value, found.value);
      assert t == s1.(stack := stack,
                      callStack := s1.callStack + [FrameFor(m.digest(d.code), found.value, gasLimit, value)],
                      pc := s1.pc + 1, gas := s1.gas - 40);
      LeadsThrough(m, s, s1, t);
    } else {
      LeadsRuns(m, s, s1);
    }
  }

  /** Calling the address just deployed opens a frame with the computed value and gas limit and the
      code of what the address finds: the new contract if it was stored at the address's first byte,
      otherwise one that was already there. If it finds none, the call fails. */
  lemma DeployThenCall(m: Machine, s: State, d: Deployment, gasLimit: Operand, value: Operand)
    requires At(m, s.pc, (gasLimit.code + value.code) + (DeployCode(d) + [CALL]))
    requires CoversBoth(m, s, gasLimit, value) && Deployable(m, d, BothGiven(gasLimit, value, s))
    requires s.gas >= gasLimit.cost + value.cost + DeployCost(d) + 40
    ensures var found := FoundAfter(m, s, d);
            if found.Some? then Leads(m, s, CalledState(m, s, d, gasLimit, value, found.value))
            else Run(m, s).0 == Failed(ContractNotFound)
  {
    AtSplit(m, s.pc, gasLimit.code + value.code, DeployCode(d) + [CALL]);
    var s1 := BothGiven(gasLimit, value, s);
    BothRun(m, s, gasLimit, value);
    DeployedIsCalled(m, s1, s.stack, d, gasLimit.value, value.value);
    var found := FoundAfter(m, s, d);
    assert FoundAfter(m, s1, d) == found;
    if found.Some? {
      var t := CalledState(m, s, d, gasLimit, value, found.value);
      assert CalledFrom(m, s1, s.stack, d, gasLimit.value, value.value, found.value) == t;
      LeadsThrough(m, s, s1, t);
    } else {
      LeadsRuns(m, s, s1);
    }
  }

  // ---------- Reading the program ----------

  /** The bytes two operands address, the second giving their number. */
  function Addressed(m: Machine, offset: Operand, size: Operand): seq<byte>
    requires offset.value + size.value <= |m.program|
  {
    m.program[offset.value..offset.value + size.value]
  }

  lemma HashStep(m: Machine, s: State, stack: seq<Value>, offset: Amount, size: Amount)
    requires s.stack == stack + [Int(offset), Int(size)]
    ensures DoSha3(m, s)
         == if offset + size <= |m.program|
            then Next(s.(stack := stack + [Bytes(m.digest(m.program[offset..offset + size]))], pc := s.pc + 1))
            else Halt(Trap, s.(stack := stack))
  {
    PopTwoOfPair(stack, offset, size);
  }

  lemma HashLeads(m: Machine, s: State, s1: State, stack: seq<Value>, offset: Amount, size: Amount, t: State)
    requires Leads(m, s, s1) && At(m, s1.pc, [SHA3]) && s1.gas >= 50
    requires s1.stack == stack + [Int(offset), Int(size)]
    requires offset + size <= |m.program|
    requires t == s1.(stack := stack + [Bytes(m.digest(m.program[offset..offset + size]))],
                      pc := s1.pc + 1, gas := s1.gas - 50)
    ensures Leads(m, s, t)
  {
    HashStep(m, s1.(gas := s1.gas - 50), stack, offset, size);
    InstructionLeads(m, s1, SHA3, t);
    LeadsThrough(m, s, s1, t);
  }

  lemma HashTraps(m: Machine, s: State, s1: State, stack: seq<Value>, offset: Amount, size: Amount)
    requires Leads(m, s, s1) && At(m, s1.pc, [SHA3]) && s1.gas >= 50
    requires s1.stack == stack + [Int(offset), Int(size)]
    requires offset + size > |m.program|
    ensures Run(m, s).0 == Trap
  {
    var paid := s1.(gas := s1.gas - 50);
    HashStep(m, paid, stack, offset, size);
    InstructionHalts(m, s1, SHA3, Trap, paid.(stack := stack));
    LeadsRuns(m, s, s1);
  }

  function HashedState(m: Machine, s: State, offset: Operand, size: Operand): State
    requires offset.value + size.value <= |m.program| && s.gas >= offset.cost + size.cost + 50
  {
    s.(stack := s.stack + [Bytes(m.digest(Addressed(m, offset, size)))],
       pc := s.pc + |offset.code + size.code| + 1,
       gas := s.gas - offset.cost - size.cost - 50)
  }

  lemma HashedFromOperands(m: Machine, s: State, offset: Operand, size: Operand)
    requires offset.value + size.value <= |m.program| && s.gas >= offset.cost + size.cost + 50
    ensures var s1 := BothGiven(offset, size, s);
            var data := m.program[offset.value..offset.value + size.value];
            s1.(stack := s.stack + [Bytes(m.digest(data))], pc := s1.pc + 1, gas := s1.gas - 50)
            == HashedState(m, s, offset, size)
  {
  }

  /** SHA3 pushes the digest of the program bytes its operands address, and panics exactly when they
      reach beyond the program. */
  lemma HashReads(m: Machine, s: State, offset: Operand, size: Operand)
    requires At(m, s.pc, (offset.code + size.code) + [SHA3])
    requires CoversBoth(m, s, offset, size) && s.gas >= offset.cost + size.cost + 50
    ensures if offset.value + size.value <= |m.program| then Leads(m, s, HashedState(m, s, offset, size))
            else Run(m, s).0 == Trap
  {
    AtSplit(m, s.pc, offset.code + size.code, [SHA3]);
    BothRun(m, s, offset, size);
    var s1 := BothGiven(offset, size, s);
    if offset.value + size.value <= |m.program| {
      HashedFromOperands(m, s, offset, size);
      HashLeads(m, s, s1, s.stack, offset.value, size.value, HashedState(m, s, offset, size));
    } else {
      HashTraps(m, s, s1, s.stack, offset.value, size.value);
    }
  }

  lemma ReturnStep(m: Machine, s: State, stack: seq<Value>, offset: Amount, size: Amount)
    requires s.stack == stack + [Int(offset), Int(size)]
    ensures DoReturn(m, s)
         == if s.callStack == [] then Next(s.(stack := stack, pc := s.pc + 1))
            else if offset + size <= |m.program| then
              Next(s.(stack := stack, pc := s.pc + 1,
                      callStack := Handed(s.callStack, m.program[offset..offset + size])))
            else Halt(Trap, s.(stack := stack))
  {
    PopTwoOfPair(stack, offset, size);
  }

  /** The frames with `data` as the innermost one's return data. */
  function Handed(frames: seq<CallFrame>, data: seq<byte>): seq<CallFrame>
    requires frames != []
  {
    frames[..|frames| - 1] + [Last(frames).(returnData := data)]
  }

  lemma ReturnLeads(m: Machine, s: State, s1: State, stack: seq<Value>, offset: Amount, size: Amount, t: State)
    requires Leads(m, s, s1) && At(m, s1.pc, [RETURN]) && s1.gas >= 5
    requires s1.stack == stack + [Int(offset), Int(size)]
    requires s1.callStack == [] || offset + size <= |m.program|
    requires var popped := s1.(stack := stack, pc := s1.pc + 1, gas := s1.gas - 5);
             t == if s1.callStack == [] then popped
                  else popped.(callStack := Handed(s1.callStack, m.program[offset..offset + size]))
    ensures Leads(m, s, t)
  {
    ReturnStep(m, s1.(gas := s1.gas - 5), stack, offset, size);
    InstructionLeads(m, s1, RETURN, t);
    LeadsThrough(m, s, s1, t);
  }

  lemma ReturnTraps(m: Machine, s: State, s1: State, stack: seq<Value>, offset: Amount, size: Amount)
    requires Leads(m, s, s1) && At(m, s1.pc, [RETURN]) && s1.gas >= 5
    requires s1.stack == stack + [Int(offset), Int(size)]
    requires s1.callStack != [] && offset + size > |m.program|
    ensures Run(m, s).0 == Trap
  {
    var paid := s1.(gas := s1.gas - 5);
    ReturnStep(m, paid, stack, offset, size);
    InstructionHalts(m, s1, RETURN, Trap, paid.(stack := stack));
    LeadsRuns(m, s, s1);
  }

  function ReturnedState(m: Machine, s: State, offset: Operand, size: Operand): State
    requires s.callStack != [] ==> offset.value + size.value <= |m.program|
    requires s.gas >= offset.cost + size.cost + 5
  {
    s.(callStack := if s.callStack == [] then [] else Handed(s.callStack, Addressed(m, offset, size)),
       pc := s.pc + |offset.code + size.code| + 1,
       gas := s.gas - offset.cost - size.cost - 5)
  }

  lemma ReturnedFromOperands(m: Machine, s: State, offset: Operand, size: Operand)
    requires s.callStack == [] || offset.value + size.value <= |m.program|
    requires s.gas >= offset.cost + size.cost + 5
    ensures var s1 := BothGiven(offset, size, s);
            var t := s1.(stack := s.stack, pc := s1.pc + 1, gas := s1.gas - 5);
            ReturnedState(m, s, offset, size)
            == if s.callStack == [] then t
               else t.(callStack := Handed(s.callStack, m.program[offset.value..offset.value + size.value]))
  {
  }

  /** RETURN hands the innermost call frame, and no other, the program bytes its operands address;
      without a frame it reads nothing; and it panics exactly when there is a frame and they reach
      beyond the program. */
  lemma ReturnReads(m: Machine, s: State, offset: Operand, size: Operand)
    requires At(m, s.pc, (offset.code + size.code) + [RETURN])
    requires CoversBoth(m, s, offset, size) && s.gas >= offset.cost + size.cost + 5
    ensures if s.callStack == [] || offset.value + size.value <= |m.program|
            then Leads(m, s, ReturnedState(m, s, offset, size))
            else Run(m, s).0 == Trap
  {
    AtSplit(m, s.pc, offset.code + size.code, [RETURN]);
    BothRun(m, s, offset, size);
    var s1 := BothGiven(offset, size, s);
    if s.callStack == [] || offset.value + size.value <= |m.program| {
      ReturnedFromOperands(m, s, offset, size);
      ReturnLeads(m, s, s1, s.stack, offset.value, size.value, ReturnedState(m, s, offset, size));
    } else {
      ReturnTraps(m, s, s1, s.stack, offset.value, size.value);
    }
  }

  lemma HashesFirstByte(m: Machine, s: State, q: seq<byte>)
    requires q == [PUSH, 0] + [PUSH, 1] + [SHA3] && At(m, s.pc, q) && |m.program| == s.pc + 5
    requires s.stack == [] && s.gas >= 56
    ensures Run(m, s).1.stack == [Bytes(m.digest(m.program[0..1]))]
  {
    var zero, one := Operand([PUSH, 0], 0, 3, 1), Operand([PUSH, 1], 1, 3, 1);
    ExpressionComputes(m, Leaf(0));
    ExpressionComputes(m, Leaf(1));
    HashReads(m, s, zero, one);
    LeadsRuns(m, s, HashedState(m, s, zero, one));
  }

  /** Relocatability matters: moved behind one byte of other code, the program that hashes its own
      first byte hashes that other byte instead, and so ends differently exactly when the two bytes
      have different digests. */
  lemma HashingIsNotRelocatable(other: byte, digest: seq<byte> -> Digest, gas: nat)
    requires gas >= 56
    ensures var q := [PUSH, 0] + [PUSH, 1] + [SHA3];
            var alone := Run(Machine(q, digest), Start(gas)).1.stack;
            var moved := Run(Machine([other] + q, digest), Start(gas).(pc := 1)).1.stack;
            && alone == [Bytes(digest([PUSH]))] && moved == [Bytes(digest([other]))]
            && (alone != moved <==> digest([PUSH]) != digest([other]))
  {
    var q := [PUSH, 0] + [PUSH, 1] + [SHA3];
    assert q[0..1] == [PUSH];
    assert ([other] + q)[0..1] == [other];
    HashesFirstByte(Machine(q, digest), Start(gas), q);
    HashesFirstByte(Machine([other] + q, digest), Start(gas).(pc := 1), q);
  }
}
