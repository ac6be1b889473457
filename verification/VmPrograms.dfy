/** Putting programs together: sequencing, relocation, and compiled expressions. */
module VmPrograms {
  import opened Collections
  import opened Vm

  // ---------- Sequencing and relocation ----------

  function Then(m: Machine, more: seq<byte>): Machine {
    m.(program := m.program + more)
  }

  function Shifted(s: State, distance: nat): State {
    s.(pc := s.pc + distance)
  }

  lemma SliceOfPrefix(p: seq<byte>, q: seq<byte>, from: nat, to: nat)
    requires from <= to <= |p|
    ensures (p + q)[from..to] == p[from..to]
  {
  }

  lemma SliceOfSuffix(p: seq<byte>, q: seq<byte>, from: nat, to: nat)
    requires from <= to <= |q|
    ensures (p + q)[|p| + from..|p| + to] == q[from..to]
  {
  }

  predicate Panics(r: StepResult) {
    r.Halt? && r.outcome == Trap
  }

  lemma CreateInPrefix(m: Machine, s: State, more: seq<byte>)
    requires s.pc < |m.program| && !Panics(DoCreate(m, s))
    ensures DoCreate(Then(m, more), s) == DoCreate(m, s)
  {
    var p := PopTwo(s.stack);
    if p.Operands? && s.pc + 1 + AsU64(p.below) <= |m.program| {
      SliceOfPrefix(m.program, more, s.pc + 1, s.pc + 1 + AsU64(p.below));
    }
  }

  lemma ReadsInPrefix(m: Machine, s: State, more: seq<byte>)
    requires s.pc < |m.program|
    ensures !Panics(DoSha3(m, s)) ==> DoSha3(Then(m, more), s) == DoSha3(m, s)
    ensures !Panics(DoReturn(m, s)) ==> DoReturn(Then(m, more), s) == DoReturn(m, s)
  {
    var p := PopTwo(s.stack);
    if p.Operands? && AsU64(p.below) + AsU64(p.top) <= |m.program| {
      SliceOfPrefix(m.program, more, AsU64(p.below), AsU64(p.below) + AsU64(p.top));
    }
  }

  lemma InstructionInPrefix(m: Machine, s: State, more: seq<byte>, opcode: byte)
    requires s.pc < |m.program| && !Panics(Instruction(m, s, opcode))
    ensures Instruction(Then(m, more), s, opcode) == Instruction(m, s, opcode)
  {
    if opcode == CREATE {
      CreateInPrefix(m, s, more);
    } else if opcode == SHA3 || opcode == RETURN {
      ReadsInPrefix(m, s, more);
    } else if opcode == PUSH {
      assert DoPush(Then(m, more), s) == DoPush(m, s);
    }
  }

  /** Appending code changes no instruction of the original, unless it panics there. */
  lemma StepInPrefix(m: Machine, s: State, more: seq<byte>)
    requires s.pc < |m.program| && !Panics(Step(m, s))
    ensures Step(Then(m, more), s) == Step(m, s)
  {
    assert Then(m, more).program[s.pc] == m.program[s.pc];
    if s.gas >= GasCost(m.program[s.pc]) {
      StepIsInstruction(m, s);
      StepIsInstruction(Then(m, more), s);
      InstructionInPrefix(m, Paid(m, s), more, m.program[s.pc]);
    }
  }

  /** A program followed by more code does what it did alone; where it ran off its end, the run
      goes on into the code that follows, from the same state. */
  lemma {:induction false} RunsInSequence(m: Machine, s: State, more: seq<byte>)
    requires s.pc <= |m.program| && Run(m, s).0 != Trap
    ensures var (outcome, t) := Run(m, s);
            Run(Then(m, more), s)
            == if outcome == Done && t.pc == |m.program| then Run(Then(m, more), t) else (outcome, t)
    decreases |m.program| - s.pc
  {
    if s.pc < |m.program| {
      RunUnfolds(m, s);
      RunUnfolds(Then(m, more), s);
      StepInPrefix(m, s, more);
      if Step(m, s).Next? {
        RunsInSequence(m, Step(m, s).state, more);
      } else {
        HaltKeepsOffset(m, s);
      }
    }
  }

  lemma HaltKeepsOffset(m: Machine, s: State)
    requires s.pc < |m.program|
    ensures Step(m, s).Halt? ==> Step(m, s).state.pc == s.pc
  {
  }

  /** The instruction at the offset addresses the program absolutely. */
  predicate ReadsProgram(m: Machine, s: State)
    requires s.pc < |m.program|
  {
    m.program[s.pc] == SHA3 || (m.program[s.pc] == RETURN && s.callStack != [])
  }

  /** No instruction of the run addresses the program absolutely. */
  predicate Relocatable(m: Machine, s: State)
    decreases |m.program| - s.pc
  {
    s.pc < |m.program| ==>
      !ReadsProgram(m, s) && (Step(m, s).Next? ==> Relocatable(m, Step(m, s).state))
  }

  function ShiftedResult(r: StepResult, distance: nat): StepResult {
    r.(state := Shifted(r.state, distance))
  }

  /** `first` placed in front of a machine's program. */
  function Behind(first: seq<byte>, m: Machine): Machine {
    m.(program := first + m.program)
  }

  lemma CreateShifts(m: Machine, s: State, first: seq<byte>)
    requires s.pc < |m.program|
    ensures DoCreate(Behind(first, m), Shifted(s, |first|)) == ShiftedResult(DoCreate(m, s), |first|)
  {
    var p := PopTwo(s.stack);
    if p.Operands? && s.pc + 1 + AsU64(p.below) <= |m.program| {
      SliceOfSuffix(first, m.program, s.pc + 1, s.pc + 1 + AsU64(p.below));
    }
  }

  lemma PushShifts(m: Machine, s: State, first: seq<byte>)
    requires s.pc < |m.program|
    ensures DoPush(Behind(first, m), Shifted(s, |first|)) == ShiftedResult(DoPush(m, s), |first|)
  {
    if s.pc + 1 < |m.program| {
      assert (first + m.program)[|first| + s.pc + 1] == m.program[s.pc + 1];
    }
  }

  lemma StackOnlyShift(s: State, opcode: byte, distance: nat)
    ensures DoArithmetic(Shifted(s, distance), opcode) == ShiftedResult(DoArithmetic(s, opcode), distance)
  {
  }

  lemma MemoryShifts(s: State, distance: nat)
    ensures DoStore(Shifted(s, distance)) == ShiftedResult(DoStore(s), distance)
    ensures DoLoad(Shifted(s, distance)) == ShiftedResult(DoLoad(s), distance)
  {
  }

  lemma ContractsShift(s: State, distance: nat)
    ensures DoCall(Shifted(s, distance)) == ShiftedResult(DoCall(s), distance)
    ensures DoBalance(Shifted(s, distance)) == ShiftedResult(DoBalance(s), distance)
  {
    assert forall address: Digest :: ContractAt(Shifted(s, distance), address) == ContractAt(s, address);
  }

  lemma ReturnShifts(m: Machine, s: State, first: seq<byte>)
    requires s.callStack == []
    ensures DoReturn(Behind(first, m), Shifted(s, |first|)) == ShiftedResult(DoReturn(m, s), |first|)
  {
  }

  lemma InstructionShifts(m: Machine, s: State, first: seq<byte>, opcode: byte)
    requires s.pc < |m.program| && opcode != SHA3 && (opcode == RETURN ==> s.callStack == [])
    ensures Instruction(Behind(first, m), Shifted(s, |first|), opcode)
         == ShiftedResult(Instruction(m, s, opcode), |first|)
  {
    if opcode == PUSH { PushShifts(m, s, first); }
    else if opcode == ADD || opcode == MUL { StackOnlyShift(s, opcode, |first|); }
    else if opcode == STORE || opcode == LOAD { MemoryShifts(s, |first|); }
    else if opcode == CREATE { CreateShifts(m, s, first); }
    else if opcode == CALL || opcode == BALANCE { ContractsShift(s, |first|); }
    else if opcode == RETURN { ReturnShifts(m, s, first); }
  }

  lemma StepShifts(m: Machine, s: State, first: seq<byte>)
    requires s.pc < |m.program| && !ReadsProgram(m, s)
    ensures Step(Behind(first, m), Shifted(s, |first|)) == ShiftedResult(Step(m, s), |first|)
  {
    var n, t := Behind(first, m), Shifted(s, |first|);
    assert n.program[t.pc] == m.program[s.pc];
    if s.gas >= GasCost(m.program[s.pc]) {
      StepIsInstruction(m, s);
      StepIsInstruction(n, t);
      assert Paid(n, t) == Shifted(Paid(m, s), |first|);
      InstructionShifts(m, Paid(m, s), first, m.program[s.pc]);
    }
  }

  /** Code that does not address the program absolutely runs the same wherever it is placed,
      panics and errors included. */
  lemma {:induction false} Relocation(m: Machine, s: State, first: seq<byte>)
    requires Relocatable(m, s)
    ensures var (outcome, t) := Run(m, s);
            Run(Behind(first, m), Shifted(s, |first|)) == (outcome, Shifted(t, |first|))
    decreases |m.program| - s.pc
  {
    if s.pc < |m.program| {
      RunUnfolds(m, s);
      RunUnfolds(Behind(first, m), Shifted(s, |first|));
      StepShifts(m, s, first);
      if Step(m, s).Next? {
        Relocation(m, Step(m, s).state, first);
      }
    }
  }

  /** So running p ++ q is running p off its end and then q from where p left the machine, as if q
      were a program of its own. */
  lemma Sequencing(p: Machine, q: seq<byte>, s: State)
    requires s.pc <= |p.program|
    requires var (outcome, t) := Run(p, s);
             outcome == Done && t.pc == |p.program| && Relocatable(p.(program := q), t.(pc := 0))
    ensures var t := Run(p, s).1;
            var (outcome, u) := Run(p.(program := q), t.(pc := 0));
            Run(Then(p, q), s) == (outcome, Shifted(u, |p.program|))
  {
    var t := Run(p, s).1;
    RunsInSequence(p, s, q);
    Relocation(p.(program := q), t.(pc := 0), p.program);
    assert Shifted(t.(pc := 0), |p.program|) == t;
    assert Behind(p.program, p.(program := q)) == Then(p, q);
  }

  // ---------- Straight-line code ----------

  /** `code` stands at offset `pc` of the program. */
  ghost predicate At(m: Machine, pc: nat, code: seq<byte>) {
    pc + |code| <= |m.program| && forall i | 0 <= i < |code| :: m.program[pc + i] == code[i]
  }

  lemma AtSplit(m: Machine, pc: nat, a: seq<byte>, b: seq<byte>)
    requires At(m, pc, a + b)
    ensures At(m, pc, a) && At(m, pc + |a|, b)
  {
    forall i | 0 <= i < |a|
      ensures m.program[pc + i] == a[i]
    {
      assert (a + b)[i] == a[i];
    }
    forall i | 0 <= i < |b|
      ensures m.program[pc + |a| + i] == b[i]
    {
      assert (a + b)[|a| + i] == b[i];
    }
  }

  lemma AtByte(m: Machine, pc: nat, code: seq<byte>, i: nat)
    requires At(m, pc, code) && i < |code|
    ensures m.program[pc + i] == code[i]
  {
  }

  ghost predicate StepsTo(m: Machine, s: State, t: State) {
    s.pc < |m.program| && Step(m, s) == Next(t)
  }

  ghost predicate IsPath(m: Machine, path: seq<State>) {
    forall i, j {:trigger StepsTo(m, path[i], path[j])} | 0 <= i && j == i + 1 && j < |path| ::
      StepsTo(m, path[i], path[j])
  }

  /** Some instructions take the machine from `s` to `t`. */
  ghost predicate Leads(m: Machine, s: State, t: State) {
    exists path: seq<State> {:trigger IsPath(m, path)} ::
      IsPath(m, path) && |path| > 0 && path[0] == s && path[|path| - 1] == t
  }

  lemma LeadsByStep(m: Machine, s: State)
    requires s.pc < |m.program| && Step(m, s).Next?
    ensures Leads(m, s, Step(m, s).state)
  {
    assert IsPath(m, [s, Step(m, s).state]);
  }

  /** An instruction that goes on leads to its result, its gas paid. */
  lemma InstructionLeads(m: Machine, s: State, opcode: byte, t: State)
    requires At(m, s.pc, [opcode]) && s.gas >= GasCost(opcode)
    requires Instruction(m, s.(gas := s.gas - GasCost(opcode)), opcode) == Next(t)
    ensures Leads(m, s, t)
  {
    AtByte(m, s.pc, [opcode], 0);
    StepIsInstruction(m, s);
    assert Paid(m, s) == s.(gas := s.gas - GasCost(opcode));
    assert Step(m, s) == Next(t);
    LeadsByStep(m, s);
  }

  lemma LeadsThrough(m: Machine, s: State, t: State, u: State)
    requires Leads(m, s, t) && Leads(m, t, u)
    ensures Leads(m, s, u)
  {
    var first: seq<State> :| IsPath(m, first) && |first| > 0 && first[0] == s && first[|first| - 1] == t;
    var second: seq<State> :| IsPath(m, second) && |second| > 0 && second[0] == t && second[|second| - 1] == u;
    var path := first + second[1..];
    forall i, j | 0 <= i && j == i + 1 && j < |path|
      ensures StepsTo(m, path[i], path[j])
    {
      if j < |first| {
        assert StepsTo(m, first[i], first[j]);
      } else {
        var k := i - |first| + 1;
        assert path[i] == second[k] && path[j] == second[k + 1];
        assert StepsTo(m, second[k], second[k + 1]);
      }
    }
    assert IsPath(m, path);
  }

  lemma {:induction false} PathRuns(m: Machine, path: seq<State>)
    requires IsPath(m, path) && path != []
    ensures Run(m, path[0]) == Run(m, path[|path| - 1])
    decreases |path|
  {
    if |path| > 1 {
      assert StepsTo(m, path[0], path[1]);
      RunUnfolds(m, path[0]);
      forall i, j | 0 <= i && j == i + 1 && j < |path[1..]|
        ensures StepsTo(m, path[1..][i], path[1..][j])
      {
        assert StepsTo(m, path[i + 1], path[j + 1]);
      }
      PathRuns(m, path[1..]);
    }
  }

  /** A state that leads to another has the same outcome. */
  lemma LeadsRuns(m: Machine, s: State, t: State)
    requires Leads(m, s, t)
    ensures Run(m, s) == Run(m, t)
  {
    var path: seq<State> :| IsPath(m, path) && |path| > 0 && path[0] == s && path[|path| - 1] == t;
    PathRuns(m, path);
  }

  function Pushed(s: State, value: byte): State
    requires s.gas >= 3
  {
    s.(stack := s.stack + [Int(value)], pc := s.pc + 2, gas := s.gas - 3)
  }

  /** The run stores nothing and ends out of gas, which needs a short supply, or with a stack
      overflow, which needs a deep stack, or in a panic, which needs a large value. */
  ghost predicate FailsFor(m: Machine, s: State, short: bool, deep: bool, large: bool) {
    var (outcome, t) := Run(m, s);
    && t.memory == s.memory
    && (|| (short && outcome == Failed(GasLimitExceeded))
        || (deep && outcome == Failed(StackOverflow))
        || (large && outcome == Trap))
  }

  lemma PushRuns(m: Machine, s: State, value: byte)
    requires At(m, s.pc, [PUSH, value])
    ensures if s.gas >= 3 && |s.stack| < STACK_LIMIT then Leads(m, s, Pushed(s, value))
            else FailsFor(m, s, s.gas < 3, |s.stack| >= STACK_LIMIT, false)
  {
    AtByte(m, s.pc, [PUSH, value], 0);
    AtByte(m, s.pc, [PUSH, value], 1);
    if s.gas >= 3 && |s.stack| < STACK_LIMIT {
      LeadsByStep(m, s);
    } else {
      RunUnfolds(m, s);
    }
  }

  /** The state after an operator replaced `a` and `b` by `n`. */
  function Combined(s: State, stack: seq<Value>, n: i64): State
    requires s.gas >= 5
  {
    s.(stack := stack + [Int(n)], pc := s.pc + 1, gas := s.gas - 5)
  }

  lemma ArithmeticRuns(m: Machine, s: State, opcode: byte, stack: seq<Value>, a: i64, b: i64)
    requires opcode == ADD || opcode == MUL
    requires At(m, s.pc, [opcode]) && s.stack == stack + [Int(a), Int(b)]
    ensures var n := Combine(opcode, a, b);
            if s.gas >= 5 && -I64_LIMIT <= n < I64_LIMIT then Leads(m, s, Combined(s, stack, n))
            else FailsFor(m, s, s.gas < 5, false, !(-I64_LIMIT <= n < I64_LIMIT))
  {
    AtByte(m, s.pc, [opcode], 0);
    PopTwoOfPair(stack, a, b);
    if s.gas >= 5 && -I64_LIMIT <= Combine(opcode, a, b) < I64_LIMIT {
      LeadsByStep(m, s);
    } else {
      RunUnfolds(m, s);
    }
  }

  lemma PopTwoOfPair(stack: seq<Value>, a: i64, b: i64)
    ensures PopTwo(stack + [Int(a), Int(b)]) == Operands(a, b, stack)
  {
    assert Rest(stack + [Int(a), Int(b)]) == stack + [Int(a)];
    assert Rest(stack + [Int(a)]) == stack;
  }

  // ---------- Compiled expressions ----------

  datatype Expr = Leaf(value: byte) | Plus(left: Expr, right: Expr) | Times(left: Expr, right: Expr)

  function Code(e: Expr): seq<byte> {
    match e
    case Leaf(b) => [PUSH, b]
    case Plus(l, r) => Code(l) + Code(r) + [ADD]
    case Times(l, r) => Code(l) + Code(r) + [MUL]
  }

  function Eval(e: Expr): nat {
    match e
    case Leaf(b) => b
    case Plus(l, r) => Eval(l) + Eval(r)
    case Times(l, r) => Eval(l) * Eval(r)
  }

  function Leaves(e: Expr): nat {
    if e.Leaf? then 1 else Leaves(e.left) + Leaves(e.right)
  }

  function Operators(e: Expr): nat {
    if e.Leaf? then 0 else 1 + Operators(e.left) + Operators(e.right)
  }

  function Cost(e: Expr): nat {
    3 * Leaves(e) + 5 * Operators(e)
  }

  /** Stack slots the postfix code needs. */
  function Height(e: Expr): nat {
    if e.Leaf? then 1
    else if Height(e.left) > 1 + Height(e.right) then Height(e.left) else 1 + Height(e.right)
  }

  /** No subexpression overflows an i64. */
  predicate Fits(e: Expr) {
    Eval(e) < I64_LIMIT && (!e.Leaf? ==> Fits(e.left) && Fits(e.right))
  }

  ghost predicate Affordable(e: Expr, s: State) {
    Fits(e) && s.gas >= Cost(e) && |s.stack| + Height(e) <= STACK_LIMIT
  }

  function Evaluated(e: Expr, s: State): State
    requires s.gas >= Cost(e) && Eval(e) < I64_LIMIT
  {
    s.(stack := s.stack + [Int(Eval(e))], pc := s.pc + |Code(e)|, gas := s.gas - Cost(e))
  }

  /** Wherever an affordable expression's code stands, it pushes the expression's value and costs
      its price. */
  lemma {:induction false} CodeRuns(m: Machine, s: State, e: Expr)
    requires At(m, s.pc, Code(e)) && Affordable(e, s)
    ensures Leads(m, s, Evaluated(e, s))
    decreases e
  {
    if e.Leaf? {
      PushRuns(m, s, e.value);
    } else {
      OperatorCode(m, s, e);
      OperatorAffordable(e, s);
      var s1 := Evaluated(e.left, s);
      var s2 := Evaluated(e.right, s1);
      CodeRuns(m, s, e.left);
      assert s1.pc == s.pc + |Code(e.left)|;
      CodeRuns(m, s1, e.right);
      LeadsThrough(m, s, s1, s2);
      OperatorRuns(m, s, e);
      LeadsThrough(m, s, s2, Evaluated(e, s));
    }
  }

  lemma AtThree(m: Machine, pc: nat, code: seq<byte>, a: seq<byte>, b: seq<byte>, c: seq<byte>)
    requires At(m, pc, code) && code == a + b + c
    ensures At(m, pc, a) && At(m, pc + |a|, b) && At(m, pc + |a| + |b|, c)
    ensures |code| == |a| + |b| + |c|
  {
    AtSplit(m, pc, a + b, c);
    AtSplit(m, pc, a, b);
  }

  lemma OperatorCodeIs(e: Expr)
    requires !e.Leaf?
    ensures Code(e) == Code(e.left) + Code(e.right) + [Operator(e)]
  {
  }

  /** An operator's code is its operands' code and its opcode. */
  lemma OperatorCode(m: Machine, s: State, e: Expr)
    requires !e.Leaf? && At(m, s.pc, Code(e))
    ensures At(m, s.pc, Code(e.left))
    ensures At(m, s.pc + |Code(e.left)|, Code(e.right))
    ensures At(m, s.pc + |Code(e.left)| + |Code(e.right)|, [Operator(e)])
    ensures |Code(e)| == |Code(e.left)| + |Code(e.right)| + 1
  {
    OperatorCodeIs(e);
    AtThree(m, s.pc, Code(e), Code(e.left), Code(e.right), [Operator(e)]);
  }

  /** It is affordable when its operands are, one after the other, and then the operator. */
  lemma OperatorAffordable(e: Expr, s: State)
    requires !e.Leaf?
    ensures Affordable(e, s) <==>
              && Affordable(e.left, s)
              && Affordable(e.right, Evaluated(e.left, s))
              && s.gas >= Cost(e.left) + Cost(e.right) + 5
              && Combine(Operator(e), Eval(e.left), Eval(e.right)) < I64_LIMIT
    ensures Cost(e) == Cost(e.left) + Cost(e.right) + 5
    ensures Eval(e) == Combine(Operator(e), Eval(e.left), Eval(e.right))
  {
  }

  lemma OperatorRuns(m: Machine, s: State, e: Expr)
    requires !e.Leaf? && At(m, s.pc, Code(e)) && Affordable(e.left, s)
    requires var s1 := Evaluated(e.left, s); Affordable(e.right, s1)
    ensures var s2 := Evaluated(e.right, Evaluated(e.left, s));
            if Affordable(e, s) then Leads(m, s2, Evaluated(e, s))
            else FailsFor(m, s2, s.gas < Cost(e), false, !Fits(e))
  {
    OperatorCode(m, s, e);
    OperatorAffordable(e, s);
    var s2 := Evaluated(e.right, Evaluated(e.left, s));
    assert s2.stack == s.stack + [Int(Eval(e.left)), Int(Eval(e.right))];
    ArithmeticRuns(m, s2, Operator(e), s.stack, Eval(e.left), Eval(e.right));
    if Affordable(e, s) {
      assert Combined(s2, s.stack, Eval(e)) == Evaluated(e, s);
    }
  }

  function Operator(e: Expr): byte {
    if e.Times? then MUL else ADD
  }

  /** And where it cannot be afforded, the run fails for one of the reasons there are, with memory
      as it was. */
  lemma {:induction false} CodeFails(m: Machine, s: State, e: Expr)
    requires At(m, s.pc, Code(e)) && !Affordable(e, s)
    ensures FailsFor(m, s, s.gas < Cost(e), |s.stack| + Height(e) > STACK_LIMIT, !Fits(e))
    decreases e, 1
  {
    if e.Leaf? {
      PushRuns(m, s, e.value);
    } else {
      OperatorCode(m, s, e);
      OperatorAffordable(e, s);
      if !Affordable(e.left, s) {
        CodeFails(m, s, e.left);
      } else {
        var s1 := Evaluated(e.left, s);
        CodeRuns(m, s, e.left);
        LeadsRuns(m, s, s1);
        RightFails(m, s, s1, e);
      }
    }
  }

  lemma {:induction false} RightFails(m: Machine, s: State, s1: State, e: Expr)
    requires !e.Leaf? && At(m, s.pc, Code(e)) && !Affordable(e, s)
    requires Affordable(e.left, s) && s1 == Evaluated(e.left, s)
    ensures FailsFor(m, s1, s.gas < Cost(e), |s.stack| + Height(e) > STACK_LIMIT, !Fits(e))
    decreases e, 0
  {
    OperatorCode(m, s, e);
    if Affordable(e.right, s1) {
      CodeRuns(m, s1, e.right);
      LeadsRuns(m, s1, Evaluated(e.right, s1));
      OperatorRuns(m, s, e);
    } else {
      CodeFails(m, s1, e.right);
    }
  }

  /** The compiled expression is correct, exactly: the program completes if and only if no
      subexpression overflows, the gas covers 3 per leaf and 5 per operator, and the stack can hold
      it; and then it leaves exactly the value. Otherwise it stores nothing and ends out of gas, with
      a stack overflow or in a panic, and never without that being a reason. */
  lemma CompiledExpression(e: Expr, digest: seq<byte> -> Digest, gas: nat)
    ensures var (outcome, t) := Run(Machine(Code(e), digest), Start(gas));
            && (outcome == Done <==> Fits(e) && gas >= 3 * Leaves(e) + 5 * Operators(e) && Height(e) <= STACK_LIMIT)
            && (outcome == Done ==>
                  t == State([Int(Eval(e))], map[], |Code(e)|, gas - 3 * Leaves(e) - 5 * Operators(e), []))
            && (outcome != Done ==>
                  && t.memory == map[]
                  && (|| (outcome == Failed(GasLimitExceeded) && gas < 3 * Leaves(e) + 5 * Operators(e))
                      || (outcome == Failed(StackOverflow) && Height(e) > 1024)
                      || (outcome == Trap && !Fits(e))))
  {
    var m := Machine(Code(e), digest);
    assert At(m, 0, Code(e));
    if Affordable(e, Start(gas)) {
      CodeRuns(m, Start(gas), e);
      LeadsRuns(m, Start(gas), Evaluated(e, Start(gas)));
      assert [] + [Int(Eval(e))] == [Int(Eval(e))];
    } else {
      CodeFails(m, Start(gas), e);
    }
  }
}
