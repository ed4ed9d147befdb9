/** `class VM` of vm.cpp: its fields, updated in place by `reset`,
    `fetchInt32`, `step` and `run`, each proved to move the fields exactly
    as the matching function of VmSpec moves a Machine value. */
module Vm {
  import opened Words
  import opened VmSpec

  class VM {
    const code: seq<byte>
    var operandStack: seq<int32>
    var callStack: seq<uint32>
    const memory: array<int32>
    var pc: uint32
    var running: bool

    /** The fields as a Machine value. */
    ghost function State(): Machine
      reads this, memory
    {
      Machine(operandStack, callStack, memory[..], pc, running)
    }

    ghost predicate Valid()
      reads this, memory
    {
      memory.Length == MEMORY_SIZE && Fits(code, State())
    }

    /** `VM(bytecode)`: the code is copied and the machine reset. Memory
        starts with arbitrary contents, which `reset` clears. */
    constructor(bytecode: seq<byte>)
      requires |bytecode| < TWO_32 - 4
      ensures Valid() && code == bytecode && State() == Initial()
    {
      code := bytecode;
      memory := new int32[MEMORY_SIZE];
      new;
      Reset();
    }

    method Reset()
      requires memory.Length == MEMORY_SIZE && |code| < TWO_32 - 4
      modifies this, memory
      ensures Valid() && State() == Initial()
    {
      operandStack := [];
      callStack := [];
      pc := 0;
      running := true;
      for i := 0 to memory.Length
        invariant operandStack == [] && callStack == [] && pc == 0 && running
        invariant forall j :: 0 <= j < i ==> memory[j] == 0
      {
        memory[i] := 0;
      }
      assert memory[..] == seq(MEMORY_SIZE, _ => 0);
    }

    /** `ensureStack(n)`: true when the stack holds n values; otherwise the
        machine halts. */
    method EnsureStack(n: nat) returns (ok: bool)
      requires Valid()
      modifies this
      ensures Valid()
      ensures ok == (|old(operandStack)| >= n)
      ensures State() == if ok then old(State()) else Halt(old(State()))
    {
      if |operandStack| < n {
        running := false;
        return false;
      }
      return true;
    }

    /** `ensureAddr(addr)`: true when addr is inside the code; otherwise
        the machine halts. */
    method EnsureAddr(addr: uint32) returns (ok: bool)
      requires Valid()
      modifies this
      ensures Valid()
      ensures ok == (addr < |code|)
      ensures State() == if ok then old(State()) else Halt(old(State()))
    {
      if addr >= |code| {
        running := false;
        return false;
      }
      return true;
    }

    /** `fetchInt32()`: the big-endian word at `pc`, or 0 and a halt when
        fewer than four bytes remain. */
    method FetchInt32() returns (val: int32)
      requires Valid()
      modifies this
      ensures Valid()
      ensures val == Fetch(code, old(pc)).value
      ensures State() == AfterFetch(old(State()), Fetch(code, old(pc)))
    {
      if pc + 4 > |code| {
        running := false;
        return 0;
      }
      val := DecodeBE32(code[pc], code[pc + 1], code[pc + 2], code[pc + 3]);
      pc := pc + 4;
    }

    /** `operandStack.back(); operandStack.pop_back();` */
    method PopBack() returns (v: int32)
      requires Valid() && operandStack != []
      modifies this
      ensures Valid()
      ensures v == Top(old(State())) && State() == Pop(old(State()))
    {
      v := operandStack[|operandStack| - 1];
      operandStack := operandStack[..|operandStack| - 1];
    }

    /** The cases ADD, SUB, MUL, DIV and CMP of `step`. */
    method Arithmetic(opcode: byte)
      requires Valid() && IsArith(opcode)
      modifies this
      ensures Valid() && State() == ExecArith(code, opcode, old(State()))
    {
      var ok := EnsureStack(2);
      if ok {
        var b := PopBack();
        var a := PopBack();
        if opcode == 0x13 && b == 0 {
          running := false;
          return;
        }
        operandStack := operandStack + [Arith(opcode, a, b)];
      }
    }

    /** The cases JZ and JNZ. */
    method Branch(opcode: byte)
      requires Valid()
      modifies this
      ensures Valid() && State() == ExecBranch(code, opcode, old(State()))
    {
      var addr := FetchInt32();
      var ok := EnsureStack(1);
      if ok {
        var v := PopBack();
        if (opcode == 0x21 && v == 0) || (opcode != 0x21 && v != 0) {
          var inside := EnsureAddr(ToUnsigned(addr));
          if inside {
            pc := ToUnsigned(addr);
          }
        }
      }
    }

    /** The case STORE. */
    method Store()
      requires Valid()
      modifies this, memory
      ensures Valid() && State() == ExecStore(code, old(State()))
    {
      var fetched := FetchInt32();
      var idx := ToUnsigned(fetched);
      var ok := EnsureStack(1);
      if !ok {
        return;
      }
      if idx >= MEMORY_SIZE {
        running := false;
        return;
      }
      memory[idx] := operandStack[|operandStack| - 1];
      operandStack := operandStack[..|operandStack| - 1];
    }

    /** The case LOAD. */
    method Load()
      requires Valid()
      modifies this
      ensures Valid() && State() == ExecLoad(code, old(State()))
    {
      var fetched := FetchInt32();
      var idx := ToUnsigned(fetched);
      if idx >= MEMORY_SIZE {
        running := false;
        return;
      }
      operandStack := operandStack + [memory[idx]];
    }

    /** The case CALL. */
    method Call()
      requires Valid()
      modifies this
      ensures Valid() && State() == ExecCall(code, old(State()))
    {
      var fetched := FetchInt32();
      var addr := ToUnsigned(fetched);
      var ok := EnsureAddr(addr);
      if ok {
        callStack := callStack + [pc];
        pc := addr;
      }
    }

    /** The case RET. */
    method Ret()
      requires Valid()
      modifies this
      ensures Valid() && State() == ExecRet(code, old(State()))
    {
      if callStack == [] {
        running := false;
        return;
      }
      pc := callStack[|callStack| - 1];
      callStack := callStack[..|callStack| - 1];
    }

    /** `step()`, without its trace output. */
    method Step()
      requires Valid()
      modifies this, memory
      ensures Valid() && State() == VmSpec.Step(code, old(State()))
    {
      if pc >= |code| {
        running := false;
        return;
      }
      var opcode := code[pc];
      pc := pc + 1;
      Execute(opcode);
    }

    /** The `switch` of `step()`, the opcode already consumed. */
    method Execute(opcode: byte)
      requires Valid()
      modifies this, memory
      ensures Valid() && State() == VmSpec.Execute(code, opcode, old(State()))
    {
      match opcode {
        case 0x01 =>
          var v := FetchInt32();
          operandStack := operandStack + [v];
        case 0x02 =>
          var ok := EnsureStack(1);
          if ok {
            operandStack := operandStack[..|operandStack| - 1];
          }
        case 0x03 =>
          var ok := EnsureStack(1);
          if ok {
            operandStack := operandStack + [operandStack[|operandStack| - 1]];
          }
        case 0x10 => Arithmetic(opcode);
        case 0x11 => Arithmetic(opcode);
        case 0x12 => Arithmetic(opcode);
        case 0x13 => Arithmetic(opcode);
        case 0x14 => Arithmetic(opcode);
        case 0x20 =>
          var fetched := FetchInt32();
          var addr := ToUnsigned(fetched);
          var ok := EnsureAddr(addr);
          if ok {
            pc := addr;
          }
        case 0x21 => Branch(opcode);
        case 0x22 => Branch(opcode);
        case 0x30 => Store();
        case 0x31 => Load();
        case 0x40 => Call();
        case 0x41 => Ret();
        case _ =>
          running := false;
      }
    }

    /** `run()` allowed at most fuel steps. */
    method Run(fuel: nat)
      requires Valid()
      modifies this, memory
      ensures Valid() && State() == VmSpec.Run(code, old(State()), fuel)
    {
      var f := fuel;
      while running && f > 0
        invariant Valid()
        invariant VmSpec.Run(code, old(State()), fuel) == VmSpec.Run(code, State(), f)
        decreases f
      {
        Step();
        f := f - 1;
      }
    }

    /** `getResult()`. */
    function GetResult(): (r: int32)
      reads this, memory
      ensures r == Result(State())
    {
      if operandStack == [] then 0 else operandStack[|operandStack| - 1]
    }
  }
}
