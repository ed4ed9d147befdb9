/** What vm.cpp promises about a step and a run, proved of VmSpec. */
module VmProperties {
  import opened Words
  import opened VmSpec

  /** The 16 opcodes `step()` has a case for. */
  predicate IsOpcode(op: byte) {
    op in {0x01, 0x02, 0x03, 0x10, 0x11, 0x12, 0x13, 0x14, 0x20, 0x21, 0x22, 0x30, 0x31, 0x40, 0x41, 0xFF}
  }

  /** The opcodes whose case calls `fetchInt32()`. */
  predicate TakesOperand(op: byte) {
    op in {0x01, 0x20, 0x21, 0x22, 0x30, 0x31, 0x40}
  }

  /** With `pc` past the code, a step only clears `running`. */
  lemma {:induction false} StepPastEnd(code: seq<byte>, m: Machine)
    requires Fits(code, m) && m.pc >= |code|
    ensures Step(code, m) == m.(running := false)
  {
  }

  /** An opcode without a case halts the machine after consuming it, and
      so does HALT; nothing else changes. */
  lemma {:induction false} StepHalts(code: seq<byte>, m: Machine)
    requires Fits(code, m) && m.pc < |code| && (code[m.pc] == 0xFF || !IsOpcode(code[m.pc]))
    ensures Step(code, m) == m.(pc := m.pc + 1, running := false)
  {
  }

  /** A step never sets `running`, never touches memory unless it
      executes STORE, and never touches the call stack unless it executes
      CALL or RET. */
  lemma {:induction false} StepFrame(code: seq<byte>, m: Machine)
    requires Fits(code, m)
    ensures Step(code, m).running ==> m.running
    ensures (m.pc >= |code| || code[m.pc] != 0x30) ==> Step(code, m).memory == m.memory
    ensures (m.pc >= |code| || (code[m.pc] != 0x40 && code[m.pc] != 0x41)) ==> Step(code, m).calls == m.calls
  {
    if m.pc < |code| {
      StepExecutes(code, m);
      ExecuteFrame(code, code[m.pc], m.(pc := m.pc + 1));
    }
  }

  /** With `pc` inside the code, a step executes the opcode there. */
  lemma {:induction false} StepExecutes(code: seq<byte>, m: Machine)
    requires Fits(code, m) && m.pc < |code|
    ensures Step(code, m) == Execute(code, code[m.pc], m.(pc := m.pc + 1))
  {
  }

  /** The frame of one instruction: only STORE writes memory, only CALL
      and RET touch the call stack, and nothing sets `running`. */
  lemma {:induction false} ExecuteFrame(code: seq<byte>, op: byte, m: Machine)
    requires Fits(code, m)
    ensures Execute(code, op, m).running ==> m.running
    ensures op != 0x30 ==> Execute(code, op, m).memory == m.memory
    ensures op != 0x40 && op != 0x41 ==> Execute(code, op, m).calls == m.calls
  {
  }

  /** POP and DUP need one value; without it the machine halts with the
      stack unchanged. */
  lemma {:induction false} StackUnderflow(code: seq<byte>, m: Machine)
    requires Fits(code, m) && m.pc < |code| && code[m.pc] in {0x02, 0x03, 0x10, 0x11, 0x12, 0x13, 0x14}
    requires |m.stack| < if code[m.pc] in {0x02, 0x03} then 1 else 2
    ensures Step(code, m) == m.(pc := m.pc + 1, running := false)
  {
  }

  /** ADD, SUB, MUL, DIV and CMP pop b, then a, and push their result: one
      value fewer, the values below untouched. */
  lemma {:induction false} ArithmeticStep(code: seq<byte>, m: Machine)
    requires Fits(code, m) && m.pc < |code| && IsArith(code[m.pc]) && |m.stack| >= 2
    requires code[m.pc] == 0x13 ==> m.stack[|m.stack| - 1] != 0
    ensures var s, r := m.stack, Step(code, m);
      && r.stack == s[..|s| - 2] + [Arith(code[m.pc], s[|s| - 2], s[|s| - 1])]
      && r == m.(stack := r.stack, pc := m.pc + 1)
  {
  }

  /** DIV by zero pops both operands, pushes nothing and halts. */
  lemma {:induction false} DivisionByZero(code: seq<byte>, m: Machine)
    requires Fits(code, m) && m.pc < |code| && code[m.pc] == 0x13
    requires |m.stack| >= 2 && m.stack[|m.stack| - 1] == 0
    ensures Step(code, m) == m.(stack := m.stack[..|m.stack| - 2], pc := m.pc + 1, running := false)
  {
  }

  /** CMP pushes 1 when a < b and 0 otherwise. */
  lemma {:induction false} CompareStep(code: seq<byte>, m: Machine)
    requires Fits(code, m) && m.pc < |code| && code[m.pc] == 0x14 && |m.stack| >= 2
    ensures var s := m.stack;
      Top(Step(code, m)) == if s[|s| - 2] < s[|s| - 1] then 1 else 0
  {
  }

  /** The operand word of the instruction at p, when all four of its bytes
      are in the code. */
  function Operand(code: seq<byte>, p: nat): int32
    requires p + 5 <= |code|
  {
    DecodeBE32(code[p + 1], code[p + 2], code[p + 3], code[p + 4])
  }

  /** An operand cut short by the end of the code: the machine halts, `pc`
      stays after the opcode, and the instruction goes on with the value 0
      as its operand. PUSH pushes 0; JMP and CALL jump to address 0; JZ and
      JNZ pop the top and go to 0 when the test passes; STORE pops the top
      into cell 0; LOAD pushes cell 0. */
  lemma {:induction false} TruncatedOperand(code: seq<byte>, m: Machine)
    requires Fits(code, m) && m.pc < |code| && TakesOperand(code[m.pc]) && m.pc + 5 > |code|
    ensures !Step(code, m).running
    ensures var op, s, h := code[m.pc], m.stack, m.(pc := m.pc + 1, running := false);
      && (op == 0x01 ==> Step(code, m) == h.(stack := s + [0]))
      && (op == 0x20 ==> Step(code, m) == h.(pc := 0))
      && (op == 0x40 ==> Step(code, m) == h.(calls := m.calls + [m.pc + 1], pc := 0))
      && (op == 0x31 ==> Step(code, m) == h.(stack := s + [m.memory[0]]))
      && (op == 0x30 ==>
            Step(code, m) == if s == [] then h else h.(stack := s[..|s| - 1], memory := m.memory[0 := s[|s| - 1]]))
      && (op in {0x21, 0x22} ==>
            Step(code, m) == (
              if s == [] then h
              else if (op == 0x21) == (s[|s| - 1] == 0) then h.(stack := s[..|s| - 1], pc := 0)
              else h.(stack := s[..|s| - 1])))
  {
    var op := code[m.pc];
    StepOpcode(code, m, op);
    assert Fetch(code, m.pc + 1) == Fetched(0, m.pc + 1, false);
  }

  /** POP with a value on the stack removes it. */
  lemma {:induction false} PopStep(code: seq<byte>, m: Machine)
    requires Fits(code, m) && m.pc < |code| && code[m.pc] == 0x02 && m.stack != []
    ensures Step(code, m) == m.(stack := m.stack[..|m.stack| - 1], pc := m.pc + 1)
  {
  }

  /** DUP with a value on the stack pushes a copy of it. */
  lemma {:induction false} DupStep(code: seq<byte>, m: Machine)
    requires Fits(code, m) && m.pc < |code| && code[m.pc] == 0x03 && m.stack != []
    ensures Step(code, m) == m.(stack := m.stack + [Top(m)], pc := m.pc + 1)
  {
  }

  /** STORE with an empty stack, or with a cell index of 1024 or more read
      as unsigned, halts after its operand with stack and memory as they
      were. */
  lemma {:induction false} StoreOutOfBounds(code: seq<byte>, m: Machine)
    requires Fits(code, m) && m.pc + 5 <= |code| && code[m.pc] == 0x30
    requires m.stack == [] || ToUnsigned(Operand(code, m.pc)) >= MEMORY_SIZE
    ensures Step(code, m) == m.(pc := m.pc + 5, running := false)
  {
    StepOpcode(code, m, 0x30);
    FetchOperand(code, m.pc);
  }

  /** LOAD of a cell index of 1024 or more, read as unsigned, halts after
      its operand and pushes nothing. */
  lemma {:induction false} LoadOutOfBounds(code: seq<byte>, m: Machine)
    requires Fits(code, m) && m.pc + 5 <= |code| && code[m.pc] == 0x31
    requires ToUnsigned(Operand(code, m.pc)) >= MEMORY_SIZE
    ensures Step(code, m) == m.(pc := m.pc + 5, running := false)
  {
    StepOpcode(code, m, 0x31);
    FetchOperand(code, m.pc);
  }

  /** JZ and JNZ on an empty stack halt after their operand. */
  lemma {:induction false} EmptyStackBranch(code: seq<byte>, m: Machine)
    requires Fits(code, m) && m.pc + 5 <= |code| && code[m.pc] in {0x21, 0x22} && m.stack == []
    ensures Step(code, m) == m.(pc := m.pc + 5, running := false)
  {
    StepOpcode(code, m, code[m.pc]);
    FetchOperand(code, m.pc);
  }

  /** CALL to an address outside the code halts after its operand and
      pushes no return address. */
  lemma {:induction false} CallOutside(code: seq<byte>, m: Machine)
    requires Fits(code, m) && m.pc + 5 <= |code| && code[m.pc] == 0x40
    requires ToUnsigned(Operand(code, m.pc)) >= |code|
    ensures Step(code, m) == m.(pc := m.pc + 5, running := false)
  {
    StepOpcode(code, m, 0x40);
    FetchOperand(code, m.pc);
  }

  /** RET with an empty call stack halts. */
  lemma {:induction false} RetUnderflow(code: seq<byte>, m: Machine)
    requires Fits(code, m) && m.pc < |code| && code[m.pc] == 0x41 && m.calls == []
    ensures Step(code, m) == m.(pc := m.pc + 1, running := false)
  {
  }

  /** A probe for the cases of `step()`: a 5-byte code, an opcode and a
      zero operand, run from its start with two 1s on the stack and a
      return address 0. Every case but HALT's keeps the machine running;
      an opcode without a case does not. */
  predicate IsProbeCode(code: seq<byte>) {
    |code| == 5 && Operand(code, 0) == 0
  }

  predicate IsProbe(m: Machine) {
    m.stack == [1, 1] && m.calls == [0] && |m.memory| == MEMORY_SIZE && m.pc == 0 && m.running
  }

  lemma {:induction false} ProbeRuns(code: seq<byte>, m: Machine)
    requires IsProbeCode(code) && IsProbe(m)
    ensures Fits(code, m)
    ensures Step(code, m).running <==> IsOpcode(code[0]) && code[0] != 0xFF
  {
    var op := code[0];
    assert Fits(code, m);
    if op == 0xFF || !IsOpcode(op) {
      StepHalts(code, m);
    } else if IsArith(op) {
      ArithmeticStep(code, m);
    } else if op == 0x02 {
      PopStep(code, m);
    } else if op == 0x03 {
      DupStep(code, m);
    } else if op == 0x41 {
      RetStep(code, m);
    } else {
      ProbeOperand(code, m);
    }
  }

  lemma {:induction false} ProbeOperand(code: seq<byte>, m: Machine)
    requires IsProbeCode(code) && IsProbe(m) && TakesOperand(code[0])
    ensures Fits(code, m) && Step(code, m).running
  {
    var op := code[0];
    assert Fits(code, m);
    assert ToUnsigned(0) == 0;
    if op == 0x01 {
      PushStep(code, m);
    } else if op == 0x20 {
      JumpStep(code, m);
    } else if op == 0x21 || op == 0x22 {
      BranchStep(code, m);
    } else if op == 0x30 {
      StoreStep(code, m);
    } else if op == 0x31 {
      LoadStep(code, m);
    } else {
      CallStep(code, m);
    }
  }

  /** PUSH with a whole operand pushes it and moves past it. */
  lemma {:induction false} PushStep(code: seq<byte>, m: Machine)
    requires Fits(code, m) && m.pc + 5 <= |code| && code[m.pc] == 0x01
    ensures Step(code, m) == m.(stack := m.stack + [Operand(code, m.pc)], pc := m.pc + 5)
  {
  }

  /** JMP goes to its operand, read as unsigned, exactly when it is inside
      the code; otherwise the machine halts after the operand. */
  lemma {:induction false} JumpStep(code: seq<byte>, m: Machine)
    requires Fits(code, m) && m.pc + 5 <= |code| && code[m.pc] == 0x20
    ensures var addr := ToUnsigned(Operand(code, m.pc));
      Step(code, m) == if addr < |code| then m.(pc := addr) else m.(pc := m.pc + 5, running := false)
  {
  }

  /** JZ and JNZ pop the top and jump when it is zero (JZ) or not (JNZ)
      and the target is inside the code. */
  lemma {:induction false} BranchStep(code: seq<byte>, m: Machine)
    requires Fits(code, m) && m.pc + 5 <= |code| && code[m.pc] in {0x21, 0x22} && m.stack != []
    ensures var addr, v := ToUnsigned(Operand(code, m.pc)), Top(m);
      var taken := if code[m.pc] == 0x21 then v == 0 else v != 0;
      var popped := m.stack[..|m.stack| - 1];
      Step(code, m) ==
        if !taken then m.(stack := popped, pc := m.pc + 5)
        else if addr < |code| then m.(stack := popped, pc := addr)
        else m.(stack := popped, pc := m.pc + 5, running := false)
  {
  }

  /** STORE then LOAD of the same cell: the value is back on the stack and
      in the cell; nothing else changed but `pc`. */
  lemma {:induction false} StoreThenLoad(code: seq<byte>, m: Machine)
    requires Fits(code, m) && m.running && m.pc + 10 <= |code| && m.stack != []
    requires code[m.pc] == 0x30 && code[m.pc + 5] == 0x31
    requires Operand(code, m.pc) == Operand(code, m.pc + 5) && 0 <= Operand(code, m.pc) < MEMORY_SIZE as int
    ensures var idx := Operand(code, m.pc);
      Run(code, m, 2) == m.(memory := m.memory[idx := Top(m)], pc := m.pc + 10)
  {
    var idx, v := Operand(code, m.pc), Top(m);
    var m1 := m.(stack := m.stack[..|m.stack| - 1], memory := m.memory[idx := v], pc := m.pc + 5);
    var m2 := m.(memory := m.memory[idx := v], pc := m.pc + 10);
    assert Fits(code, m1);
    assert Step(code, m1) == m2 by {
      LoadStep(code, m1);
      assert m2 == m1.(stack := m1.stack + [m1.memory[idx]], pc := m1.pc + 5);
    }
    assert Step(code, m) == m1 by {
      StoreStep(code, m);
    }
    RunTwo(code, m, m1, m2);
  }

  /** A CALL to a RET comes back to the instruction after the CALL with
      both stacks as they were. */
  lemma {:induction false} CallThenReturn(code: seq<byte>, m: Machine)
    requires Fits(code, m) && m.running && m.pc + 5 <= |code| && code[m.pc] == 0x40
    requires ToUnsigned(Operand(code, m.pc)) < |code| && code[ToUnsigned(Operand(code, m.pc))] == 0x41
    ensures Run(code, m, 2) == m.(pc := m.pc + 5)
  {
    var m1 := m.(calls := m.calls + [m.pc + 5], pc := ToUnsigned(Operand(code, m.pc)));
    CallStep(code, m);
    assert Fits(code, m1);
    RetStep(code, m1);
    assert m1.calls[..|m1.calls| - 1] == m.calls;
    RunTwo(code, m, m1, m.(pc := m.pc + 5));
  }

  /** STORE at pc, its operand inside the code and the stack non-empty. */
  lemma {:induction false} StoreStep(code: seq<byte>, m: Machine)
    requires Fits(code, m) && m.pc + 5 <= |code| && code[m.pc] == 0x30 && m.stack != []
    requires 0 <= Operand(code, m.pc) < MEMORY_SIZE as int
    ensures Step(code, m) == m.(stack := m.stack[..|m.stack| - 1],
      memory := m.memory[Operand(code, m.pc) := Top(m)], pc := m.pc + 5)
  {
    var m1 := m.(pc := m.pc + 1);
    assert Step(code, m) == ExecStore(code, m1) by {
      StepOpcode(code, m, 0x30);
    }
    FetchOperand(code, m.pc);
  }

  /** LOAD at pc, its operand inside the code. */
  lemma {:induction false} LoadStep(code: seq<byte>, m: Machine)
    requires Fits(code, m) && m.pc + 5 <= |code| && code[m.pc] == 0x31
    requires 0 <= Operand(code, m.pc) < MEMORY_SIZE as int
    ensures Step(code, m) == m.(stack := m.stack + [m.memory[Operand(code, m.pc)]], pc := m.pc + 5)
  {
    var m1 := m.(pc := m.pc + 1);
    assert Step(code, m) == ExecLoad(code, m1) by {
      StepOpcode(code, m, 0x31);
    }
    FetchOperand(code, m.pc);
  }

  /** CALL at pc to an address inside the code. */
  lemma {:induction false} CallStep(code: seq<byte>, m: Machine)
    requires Fits(code, m) && m.pc + 5 <= |code| && code[m.pc] == 0x40
    requires ToUnsigned(Operand(code, m.pc)) < |code|
    ensures Step(code, m) == m.(calls := m.calls + [m.pc + 5], pc := ToUnsigned(Operand(code, m.pc)))
  {
    var m1 := m.(pc := m.pc + 1);
    assert Step(code, m) == ExecCall(code, m1) by {
      StepOpcode(code, m, 0x40);
    }
    FetchOperand(code, m.pc);
  }

  /** The opcode at pc is consumed and executed. */
  lemma {:induction false} StepOpcode(code: seq<byte>, m: Machine, op: byte)
    requires Fits(code, m) && m.pc < |code| && code[m.pc] == op
    ensures Step(code, m) == Execute(code, op, m.(pc := m.pc + 1))
  {
  }

  /** The operand after the opcode at p is read whole. */
  lemma {:induction false} FetchOperand(code: seq<byte>, p: nat)
    requires p + 5 <= |code| < TWO_32 - 4
    ensures Fetch(code, p + 1) == Fetched(Operand(code, p), p + 5, true)
  {
  }

  /** RET at pc with a return address on the call stack. */
  lemma {:induction false} RetStep(code: seq<byte>, m: Machine)
    requires Fits(code, m) && m.pc < |code| && code[m.pc] == 0x41 && m.calls != []
    ensures Step(code, m) == m.(pc := m.calls[|m.calls| - 1], calls := m.calls[..|m.calls| - 1])
  {
    StepOpcode(code, m, 0x41);
  }

  /** Two steps of fuel from a running machine whose first step keeps it
      running. */
  lemma {:induction false} RunTwo(code: seq<byte>, m: Machine, m1: Machine, m2: Machine)
    requires Fits(code, m) && m.running && Step(code, m) == m1
    requires Fits(code, m1) && m1.running && Step(code, m1) == m2
    ensures Run(code, m, 2) == m2
  {
    assert Run(code, m, 2) == Run(code, m1, 1);
    assert Run(code, m1, 1) == Run(code, m2, 0);
  }

  /** A halted machine stays as it is, whatever the fuel. */
  lemma {:induction false} RunHalted(code: seq<byte>, m: Machine, fuel: nat)
    requires Fits(code, m) && !m.running
    ensures Run(code, m, fuel) == m
  {
  }

  /** Running a + b steps is running a steps and then b more. */
  lemma {:induction false} RunAdds(code: seq<byte>, m: Machine, a: nat, b: nat)
    requires Fits(code, m)
    ensures Run(code, m, a + b) == Run(code, Run(code, m, a), b)
    decreases a, 1
  {
    if a == 0 {
      assert Run(code, m, a) == m;
    } else if !m.running {
      RunHalted(code, m, a + b);
      RunHalted(code, m, b);
    } else {
      RunAddsStep(code, m, a, b);
    }
  }

  /** The inductive step of RunAdds: the first of the a steps is taken. */
  lemma {:induction false} RunAddsStep(code: seq<byte>, m: Machine, a: nat, b: nat)
    requires Fits(code, m) && m.running && a > 0
    ensures Run(code, m, a + b) == Run(code, Run(code, m, a), b)
    decreases a, 0
  {
    var m1 := Step(code, m);
    RunAdds(code, m1, a - 1, b);
    assert Run(code, m, a + b) == Run(code, m1, (a - 1) + b);
    assert Run(code, m, a) == Run(code, m1, a - 1);
  }

  /** Once a run halts, more fuel changes nothing. */
  lemma {:induction false} MoreFuel(code: seq<byte>, m: Machine, a: nat, b: nat)
    requires Fits(code, m) && !Run(code, m, a).running && a <= b
    ensures Run(code, m, b) == Run(code, m, a)
  {
    RunAdds(code, m, a, b - a);
    RunHalted(code, Run(code, m, a), b - a);
  }

  /** DIV computes C++'s `/`: the quotient rounded toward zero, with a
      remainder smaller than the divisor and of the dividend's sign. The
      excluded case INT_MIN / -1 overflows. */
  lemma {:induction false} TruncDivRounding(a: int32, b: int32)
    requires b != 0 && !(a == -0x8000_0000 && b == -1)
    ensures var q := TruncDiv(a, b); var r := a - q * b;
      && Abs(r) < Abs(b)
      && (r == 0 || (r < 0 <==> a < 0))
      && Abs(q) * Abs(b) <= Abs(a)
  {
    var n, d := Abs(a), Abs(b);
    var k := n / d;
    QuotientFits(a, b);
    var q := TruncDiv(a, b);
    assert Abs(q) == k;
    SignedRemainder(a, b, q);
  }

  /** The truncated quotient of two int32 values other than INT_MIN / -1
      is itself an int32, so TruncDiv never wraps it. */
  lemma {:induction false} QuotientFits(a: int32, b: int32)
    requires b != 0 && !(a == -0x8000_0000 && b == -1)
    ensures var k := Abs(a) / Abs(b);
      TruncDiv(a, b) == if (a < 0) == (b < 0) then k else -k
  {
    QuotientInRange(a, b);
  }

  lemma {:induction false} QuotientInRange(a: int32, b: int32)
    requires b != 0 && !(a == -0x8000_0000 && b == -1)
    ensures var k := Abs(a) / Abs(b);
      IsInt32(if (a < 0) == (b < 0) then k else -k)
  {
    var n, d := Abs(a), Abs(b);
    QuotientBounds(n, d);
  }

  /** n / d is at most n, and at most half of it when d >= 2. */
  lemma {:induction false} QuotientBounds(n: nat, d: nat)
    requires d >= 1
    ensures n / d <= n && (d >= 2 ==> 2 * (n / d) <= n)
  {
    var k := n / d;
    assert k * d + n % d == n;
    AtLeastOnce(k, d);
    if d >= 2 {
      AtLeastTwice(k, d);
    }
  }

  lemma {:induction false} AtLeastOnce(k: nat, d: nat)
    requires d >= 1
    ensures k <= k * d
  {
    if d > 1 {
      AtLeastOnce(k, d - 1);
      assert k * d == k * (d - 1) + k;
    }
  }

  lemma {:induction false} AtLeastTwice(k: nat, d: nat)
    requires d >= 2
    ensures 2 * k <= k * d
  {
    AtLeastOnce(k, d - 1);
    assert k * d == k * (d - 1) + k;
  }

  /** With q = ±(|a| / |b|) signed as C++ signs it, a - q * b is |a| % |b|
      with the sign of a. */
  lemma {:induction false} SignedRemainder(a: int, b: int, q: int)
    requires b != 0
    requires q == if (a < 0) == (b < 0) then Abs(a) / Abs(b) else -(Abs(a) / Abs(b))
    ensures a - q * b == if a < 0 then -(Abs(a) % Abs(b)) else Abs(a) % Abs(b)
    ensures Abs(q) * Abs(b) <= Abs(a)
  {
    var n: int, d: int := Abs(a), Abs(b);
    var k: int, rem := n / d, n % d;
    assert n == k * d + rem && 0 <= rem && 0 <= k;
    SignedProduct(a, b, q, n, d, k, rem);
  }

  /** The same statement with the quotient and remainder named, so that no
      division is left in the context. */
  lemma {:induction false} SignedProduct(a: int, b: int, q: int, n: int, d: int, k: int, rem: int)
    requires n == Abs(a) && d == Abs(b) && d > 0
    requires n == k * d + rem && 0 <= rem && 0 <= k
    requires q == if (a < 0) == (b < 0) then k else -k
    ensures a - q * b == if a < 0 then -rem else rem
    ensures Abs(q) * Abs(b) <= Abs(a)
  {
    MulSigns(k, d);
  }

  lemma {:induction false} MulSigns(x: int, y: int)
    ensures (-x) * (-y) == x * y && x * (-y) == -(x * y) && (-x) * y == -(x * y)
  {
  }
}
