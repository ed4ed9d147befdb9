/** The machine vm.cpp runs, as values: its state, the effect of one
    `step()`, and a fuel-bounded `run()`. The class in Vm is proved to
    change its fields exactly as these functions say. */
module VmSpec {
  import opened Words

  /** The number of `int32_t` cells of `memory`. */
  const MEMORY_SIZE: nat := 1024

  /** The fields of `class VM` other than `code`. */
  datatype Machine = Machine(stack: seq<int32>, calls: seq<uint32>, memory: seq<int32>, pc: uint32, running: bool)

  /** What the fields always satisfy: a full memory, a program short enough
      that `pc + 4` never wraps, and `pc` and every return address inside
      or at the end of the code. */
  predicate Fits(code: seq<byte>, m: Machine) {
    && |code| < TWO_32 - 4
    && |m.memory| == MEMORY_SIZE
    && m.pc <= |code|
    && forall i :: 0 <= i < |m.calls| ==> m.calls[i] <= |code|
  }

  /** The state `reset()` leaves. */
  function Initial(): Machine {
    Machine([], [], seq(MEMORY_SIZE, _ => 0), 0, true)
  }

  /** What `fetchInt32()` returns, where it leaves `pc`, and whether it
      left `running` alone. */
  datatype Fetched = Fetched(value: int32, pc: uint32, ok: bool)

  function Fetch(code: seq<byte>, pc: uint32): Fetched
    requires pc <= |code| < TWO_32 - 4
  {
    if pc + 4 > |code| then Fetched(0, pc, false)
    else Fetched(DecodeBE32(code[pc], code[pc + 1], code[pc + 2], code[pc + 3]), pc + 4, true)
  }

  /** The machine after a fetch. */
  function AfterFetch(m: Machine, f: Fetched): Machine {
    m.(pc := f.pc, running := m.running && f.ok)
  }

  function Halt(m: Machine): Machine {
    m.(running := false)
  }

  /** `if (ensureAddr(addr)) pc = addr;` */
  function Jump(code: seq<byte>, m: Machine, addr: uint32): Machine {
    if addr >= |code| then Halt(m) else m.(pc := addr)
  }

  function Top(m: Machine): int32
    requires m.stack != []
  {
    m.stack[|m.stack| - 1]
  }

  function Pop(m: Machine): Machine
    requires m.stack != []
  {
    m.(stack := m.stack[..|m.stack| - 1])
  }

  function Push(m: Machine, v: int32): Machine {
    m.(stack := m.stack + [v])
  }

  /** C++ `/` on `int32_t`: the quotient truncated toward zero. The one
      overflowing case, INT_MIN / -1, is given its wrapped value. */
  function TruncDiv(a: int32, b: int32): int32
    requires b != 0
  {
    var q := if (a < 0) == (b < 0) then Abs(a) / Abs(b) else -(Abs(a) / Abs(b));
    Wrap32(q)
  }

  function Abs(x: int): nat {
    if x < 0 then -x else x
  }

  /** The result of ADD, SUB, MUL, DIV or CMP (b != 0 for DIV). */
  function Arith(op: byte, a: int32, b: int32): int32
    requires op == 0x13 ==> b != 0
  {
    if op == 0x10 then Wrap32(a + b)
    else if op == 0x11 then Wrap32(a - b)
    else if op == 0x12 then Wrap32(a * b)
    else if op == 0x13 then TruncDiv(a, b)
    else if a < b then 1 else 0
  }

  predicate IsArith(op: byte) {
    0x10 <= op <= 0x14
  }

  /** ADD, SUB, MUL, DIV, CMP: pop b, pop a, push the result; with fewer
      than two values nothing is popped; DIV by zero pops both and halts. */
  function ExecArith(code: seq<byte>, op: byte, m: Machine): (r: Machine)
    requires IsArith(op) && Fits(code, m)
    ensures Fits(code, r)
  {
    var s := m.stack;
    if |s| < 2 then Halt(m)
    else
      var a, b := s[|s| - 2], s[|s| - 1];
      var rest := m.(stack := s[..|s| - 2]);
      if op == 0x13 && b == 0 then Halt(rest)
      else Push(rest, Arith(op, a, b))
  }

  /** JZ and JNZ: the operand is fetched first; the top is popped when
      there is one, and the jump is checked only when the test passes. */
  function ExecBranch(code: seq<byte>, op: byte, m: Machine): (r: Machine)
    requires Fits(code, m)
    ensures Fits(code, r)
  {
    var f := Fetch(code, m.pc);
    var m1 := AfterFetch(m, f);
    if m1.stack == [] then Halt(m1)
    else
      var v := Top(m1);
      if (op == 0x21 && v == 0) || (op != 0x21 && v != 0) then Jump(code, Pop(m1), ToUnsigned(f.value))
      else Pop(m1)
  }

  /** STORE checks the stack before the index; LOAD has only the index
      check. */
  function ExecStore(code: seq<byte>, m: Machine): (r: Machine)
    requires Fits(code, m)
    ensures Fits(code, r)
  {
    var f := Fetch(code, m.pc);
    var m1 := AfterFetch(m, f);
    var idx := ToUnsigned(f.value);
    if m1.stack == [] || idx >= MEMORY_SIZE then Halt(m1)
    else Pop(m1).(memory := m1.memory[idx := Top(m1)])
  }

  function ExecLoad(code: seq<byte>, m: Machine): (r: Machine)
    requires Fits(code, m)
    ensures Fits(code, r)
  {
    var f := Fetch(code, m.pc);
    var m1 := AfterFetch(m, f);
    var idx := ToUnsigned(f.value);
    if idx >= MEMORY_SIZE then Halt(m1)
    else Push(m1, m1.memory[idx])
  }

  /** CALL pushes the address after its operand and jumps; RET pops it. */
  function ExecCall(code: seq<byte>, m: Machine): (r: Machine)
    requires Fits(code, m)
    ensures Fits(code, r)
  {
    var f := Fetch(code, m.pc);
    var m1 := AfterFetch(m, f);
    var addr := ToUnsigned(f.value);
    if addr >= |code| then Halt(m1)
    else m1.(calls := m1.calls + [m1.pc], pc := addr)
  }

  function ExecRet(code: seq<byte>, m: Machine): (r: Machine)
    requires Fits(code, m)
    ensures Fits(code, r)
  {
    if m.calls == [] then Halt(m)
    else m.(pc := m.calls[|m.calls| - 1], calls := m.calls[..|m.calls| - 1])
  }

  /** The instruction op, its opcode byte already consumed. */
  function Execute(code: seq<byte>, op: byte, m: Machine): (r: Machine)
    requires Fits(code, m)
    ensures Fits(code, r)
  {
    match op
    case 0x01 =>
      var f := Fetch(code, m.pc);
      Push(AfterFetch(m, f), f.value)
    case 0x02 => if m.stack == [] then Halt(m) else Pop(m)
    case 0x03 => if m.stack == [] then Halt(m) else Push(m, Top(m))
    case 0x10 => ExecArith(code, op, m)
    case 0x11 => ExecArith(code, op, m)
    case 0x12 => ExecArith(code, op, m)
    case 0x13 => ExecArith(code, op, m)
    case 0x14 => ExecArith(code, op, m)
    case 0x20 =>
      var f := Fetch(code, m.pc);
      Jump(code, AfterFetch(m, f), ToUnsigned(f.value))
    case 0x21 => ExecBranch(code, op, m)
    case 0x22 => ExecBranch(code, op, m)
    case 0x30 => ExecStore(code, m)
    case 0x31 => ExecLoad(code, m)
    case 0x40 => ExecCall(code, m)
    case 0x41 => ExecRet(code, m)
    case _ => Halt(m)
  }

  /** `step()`: with `pc` past the code only `running` drops; otherwise the
      opcode at `pc` is consumed and executed. The fields keep Fits. */
  function Step(code: seq<byte>, m: Machine): (r: Machine)
    requires Fits(code, m)
    ensures Fits(code, r)
  {
    if m.pc >= |code| then Halt(m)
    else Execute(code, code[m.pc], m.(pc := m.pc + 1))
  }

  /** `run()` given at most fuel steps: it stops when `running` is false. */
  function Run(code: seq<byte>, m: Machine, fuel: nat): (r: Machine)
    requires Fits(code, m)
    ensures Fits(code, r)
    decreases fuel
  {
    if fuel == 0 || !m.running then m else Run(code, Step(code, m), fuel - 1)
  }

  /** `getResult()`: the top of the stack, or 0 when it is empty. */
  function Result(m: Machine): int32 {
    if m.stack == [] then 0 else Top(m)
  }
}
