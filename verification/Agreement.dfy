/** How the three programs fit together: the operand words both assemblers
    write are the words the virtual machine reads, and the two mnemonic
    tables name the same sixteen opcodes, which are the ones the machine
    executes. */
module Agreement {
  import opened Words
  import opened Wrappers
  import PyText
  import CText
  import Strings
  import PyAsm
  import CAsm
  import opened VmSpec
  import opened VmProperties

  // ---- Byte order --------------------------------------------------------

  /** Division with remainder determines quotient and remainder. */
  lemma {:induction false} DivModUnique(n: int, d: int, q: int, r: int)
    requires d > 0 && n == q * d + r && 0 <= r < d
    ensures n / d == q && n % d == r
  {
    var q', r' := n / d, n % d;
    assert n == q' * d + r';
    if q' < q {
      Gap(q, q', d);
    } else if q' > q {
      Gap(q', q, d);
    }
  }

  /** Quotients that differ by at least one differ by at least d once
      multiplied by d. */
  lemma {:induction false} Gap(hi: int, lo: int, d: int)
    requires hi > lo && d > 0
    ensures hi * d - lo * d >= d
  {
    var k: nat := hi - lo;
    AtLeastOnce(d, k);
    assert hi * d - lo * d == d * k;
  }

  /** Adding a multiple of d moves the quotient by that many and leaves the
      remainder alone. */
  lemma {:induction false} DivShift(n: int, d: int, c: int)
    requires d > 0
    ensures (n + c * d) / d == n / d + c && (n + c * d) % d == n % d
  {
    var q, r := n / d, n % d;
    assert n + c * d == (q + c) * d + r;
    DivModUnique(n + c * d, d, q + c, r);
  }

  /** Dividing by 256 twice is dividing by 256 * 256, for the two divisors
      the byte extraction uses. */
  lemma {:induction false} DivTwice(u: int, d: int)
    requires d == 0x100 || d == 0x1_0000
    ensures u / d / 0x100 == u / (d * 0x100)
  {
    var q1, r1 := u / d, u % d;
    var q2, r2 := q1 / 0x100, q1 % 0x100;
    if d == 0x100 {
      assert u == q2 * 0x1_0000 + (r2 * 0x100 + r1);
    } else {
      assert u == q2 * 0x100_0000 + (r2 * 0x1_0000 + r1);
    }
    DivModUnique(u, d * 0x100, q2, r2 * d + r1);
  }

  /** The unsigned word the bytes of u spell, u being below 2^32. */
  lemma {:induction false} BytesOfUnsigned(u: int)
    requires 0 <= u < TWO_32
    ensures u / 0x100_0000 < 0x100
    ensures u == (u / 0x100_0000) * 0x100_0000 + ((u / 0x1_0000) % 0x100) * 0x1_0000
      + ((u / 0x100) % 0x100) * 0x100 + u % 0x100
  {
    DivTwice(u, 0x100);
    DivTwice(u, 0x1_0000);
    var a1, a2, a3 := u / 0x100, u / 0x1_0000, u / 0x100_0000;
    assert u == a1 * 0x100 + u % 0x100;
    assert a1 == a2 * 0x100 + a1 % 0x100;
    assert a2 == a3 * 0x100 + a2 % 0x100;
    DivModUnique(u, 0x100_0000, u / 0x100_0000, u % 0x100_0000);
  }

  /** The Python `struct.pack('>i', v)` and the C `write_be32(v)` write the
      same four bytes. */
  lemma {:induction false} PackIsWrite(v: int32)
    ensures PyAsm.PackBE32(v) == CAsm.WriteBE32(v)
  {
    if v < 0 {
      DivShift(v, 0x100_0000, 0x100);
      DivModUnique(v / 0x100_0000, 0x100, -1, v / 0x100_0000 + 0x100);
      DivShift(v, 0x1_0000, 0x1_0000);
      DivShift(v / 0x1_0000, 0x100, 0x100);
      DivShift(v, 0x100, 0x100_0000);
      DivShift(v / 0x100, 0x100, 0x1_0000);
    } else {
      DivModUnique(v / 0x100_0000, 0x100, 0, v / 0x100_0000);
    }
  }

  /** The machine's `fetchInt32` reads back the word the Python assembler
      packed. */
  lemma {:induction false} DecodePack(v: int32)
    ensures var bs := PyAsm.PackBE32(v); DecodeBE32(bs[0], bs[1], bs[2], bs[3]) == v
  {
    var u := if v < 0 then v + TWO_32 else v;
    BytesOfUnsigned(u);
  }

  /** ...and the four bytes of any word are what packing its value gives. */
  lemma {:induction false} PackDecode(b0: byte, b1: byte, b2: byte, b3: byte)
    ensures PyAsm.PackBE32(DecodeBE32(b0, b1, b2, b3)) == [b0, b1, b2, b3]
  {
    var u := b0 * 0x100_0000 + b1 * 0x1_0000 + b2 * 0x100 + b3;
    UnsignedOfDecode(b0, b1, b2, b3);
    DigitsOf(u, b0, b1, b2, b3);
  }

  /** The word the four bytes spell, read as unsigned again. */
  lemma {:induction false} UnsignedOfDecode(b0: byte, b1: byte, b2: byte, b3: byte)
    ensures var v := DecodeBE32(b0, b1, b2, b3);
      (if v < 0 then v + TWO_32 else v) == b0 * 0x100_0000 + b1 * 0x1_0000 + b2 * 0x100 + b3
  {
  }

  /** The base-256 digits of u are b0 .. b3. */
  lemma {:induction false} DigitsOf(u: int, b0: byte, b1: byte, b2: byte, b3: byte)
    requires u == b0 * 0x100_0000 + b1 * 0x1_0000 + b2 * 0x100 + b3
    ensures u / 0x100_0000 == b0 && (u / 0x1_0000) % 0x100 == b1
    ensures (u / 0x100) % 0x100 == b2 && u % 0x100 == b3
  {
    DivModUnique(u, 0x100, b0 * 0x1_0000 + b1 * 0x100 + b2, b3);
    DivModUnique(u, 0x1_0000, b0 * 0x100 + b1, b2 * 0x100 + b3);
    DivModUnique(u, 0x100_0000, b0, b1 * 0x1_0000 + b2 * 0x100 + b3);
    DivModUnique(b0 * 0x1_0000 + b1 * 0x100 + b2, 0x100, b0 * 0x100 + b1, b2);
    DivModUnique(b0 * 0x100 + b1, 0x100, b0, b1);
  }

  /** The same two round trips for the C writer. */
  lemma {:induction false} DecodeWrite(v: int32)
    ensures var bs := CAsm.WriteBE32(v); DecodeBE32(bs[0], bs[1], bs[2], bs[3]) == v
  {
    PackIsWrite(v);
    DecodePack(v);
  }

  // ---- Operand words -----------------------------------------------------

  /** Whatever four bytes follow the opcode at p, the machine's operand there
      is the word they spell; for packed bytes, the packed value. */
  lemma {:induction false} OperandOfPacked(code: seq<byte>, p: nat, v: int32)
    requires p + 5 <= |code| && code[p + 1..p + 5] == PyAsm.PackBE32(v)
    ensures Operand(code, p) == v
  {
    var bs := PyAsm.PackBE32(v);
    assert code[p + 1] == bs[0] && code[p + 2] == bs[1] && code[p + 3] == bs[2] && code[p + 4] == bs[3];
    DecodePack(v);
  }

  /** A record the Python assembler encodes with an operand becomes five
      bytes whose last four the machine reads back as the operand's value:
      the label's address or the integer the token spells. */
  lemma {:induction false} PyOperandReadBack(labels: map<string, nat>, r: PyAsm.Record)
    requires PyAsm.EncodeRecord(labels, r).Ok? && |PyText.Tokens(r.text)| > 1
    ensures var bs := PyAsm.EncodeRecord(labels, r).value;
      var arg := PyText.StripTrailingCommas(PyText.Tokens(r.text)[1]);
      && |bs| == 5
      && PyAsm.OperandValue(labels, arg).Some?
      && DecodeBE32(bs[1], bs[2], bs[3], bs[4]) == PyAsm.OperandValue(labels, arg).value
  {
    var arg := PyText.StripTrailingCommas(PyText.Tokens(r.text)[1]);
    var v := PyAsm.OperandValue(labels, arg).value;
    var bs := PyAsm.EncodeRecord(labels, r).value;
    assert bs[1..] == PyAsm.PackBE32(v);
    DecodePack(v);
  }

  /** The same for the C assembler: the operand word is the first label of
      that name, cast to `int32_t`, or else `atoi` of the token. */
  lemma {:induction false} COperandReadBack(labels: seq<CAsm.Label>, ins: CAsm.Instruction)
    requires CAsm.EncodeC(labels, ins).Encoded? && CAsm.ArgToken(ins.text).Some?
    ensures var bs := CAsm.EncodeC(labels, ins).bytes;
      var arg := CAsm.ArgToken(ins.text).value.token;
      && |bs| == 5
      && DecodeBE32(bs[1], bs[2], bs[3], bs[4]) ==
         match CAsm.FirstLabel(labels, arg)
         case Some(addr) => Wrap32(addr)
         case None => CText.Atoi(arg)
  {
    var arg := CAsm.ArgToken(ins.text).value.token;
    var v := match CAsm.FirstLabel(labels, arg) case Some(addr) => Wrap32(addr) case None => CText.Atoi(arg);
    var bs := CAsm.EncodeC(labels, ins).bytes;
    assert bs[1..] == CAsm.WriteBE32(v);
    DecodeWrite(v);
  }

  // ---- Opcodes -----------------------------------------------------------

  /** The C table, searched by exact name, finds the code the Python map
      holds for that name, and finds nothing for a name the map lacks. */
  lemma {:induction false} TablesAgree(name: string)
    ensures CAsm.LookupOpcode(CAsm.OPCODES, name) ==
      if name in PyAsm.OPCODES then Some(PyAsm.OPCODES[name]) else None
  {
    CAsm.LookupOpcodeFinds(CAsm.OPCODES, name);
    forall i | 0 <= i < |CAsm.OPCODES|
      ensures CAsm.OPCODES[i].name in PyAsm.OPCODES
      ensures PyAsm.OPCODES[CAsm.OPCODES[i].name] == CAsm.OPCODES[i].opcode
    {
      EntryAgrees(i);
    }
    if name in PyAsm.OPCODES {
      var i := KeyIndex(name);
      assert CAsm.OPCODES[i].name == name;
    }
  }

  /** Each entry of the C table is an entry of the Python map. */
  lemma {:induction false} EntryAgrees(i: nat)
    requires i < |CAsm.OPCODES|
    ensures CAsm.OPCODES[i].name in PyAsm.OPCODES
    ensures PyAsm.OPCODES[CAsm.OPCODES[i].name] == CAsm.OPCODES[i].opcode
  {
  }

  /** Each key of the Python map names an entry of the C table. */
  lemma {:induction false} KeyIndex(name: string) returns (i: nat)
    requires name in PyAsm.OPCODES
    ensures i < |CAsm.OPCODES| && CAsm.OPCODES[i].name == name
  {
    var names := seq(|CAsm.OPCODES|, k requires 0 <= k < |CAsm.OPCODES| => CAsm.OPCODES[k].name);
    assert names == ["PUSH", "POP", "DUP", "HALT", "ADD", "SUB", "MUL", "DIV", "CMP",
      "JMP", "JZ", "JNZ", "STORE", "LOAD", "CALL", "RET"];
    assert name in names;
    i :| i < |names| && names[i] == name;
  }

  /** The opcodes the assemblers emit are exactly those `step()` has a
      case for, and every one of them but HALT's is carried out without
      halting the probe of VmProperties; any other byte halts it. */
  lemma {:induction false} TableOpcodesRun(code: seq<byte>, m: Machine)
    requires IsProbeCode(code) && IsProbe(m)
    ensures IsOpcode(code[0]) <==> code[0] in PyAsm.OPCODES.Values
    ensures Step(code, m).running <==> code[0] in PyAsm.OPCODES.Values && code[0] != 0xFF
  {
    ProbeRuns(code, m);
    var b := code[0];
    var codes := seq(|CAsm.OPCODES|, k requires 0 <= k < |CAsm.OPCODES| => CAsm.OPCODES[k].opcode);
    assert codes == [0x01, 0x02, 0x03, 0xFF, 0x10, 0x11, 0x12, 0x13, 0x14,
      0x20, 0x21, 0x22, 0x30, 0x31, 0x40, 0x41];
    if IsOpcode(b) {
      assert b in codes;
      var i :| 0 <= i < |codes| && codes[i] == b;
      EntryAgrees(i);
      assert PyAsm.OPCODES[CAsm.OPCODES[i].name] in PyAsm.OPCODES.Values;
    }
    if b in PyAsm.OPCODES.Values {
      var name :| name in PyAsm.OPCODES && PyAsm.OPCODES[name] == b;
      var i := KeyIndex(name);
      EntryAgrees(i);
      assert b == codes[i];
    }
  }

  /** Every key of the Python table is spelled in upper-case ASCII
      letters, so `upper()` leaves it as it is. */
  lemma {:induction false} KeysAreUpper(name: string)
    requires name in PyAsm.OPCODES
    ensures forall i :: 0 <= i < |name| ==> 'A' <= name[i] <= 'Z'
    ensures PyText.Upper(name) == name
  {
    PyText.UpperOfAscii(name);
  }

  /** The C lookup is by exact name where the Python assembler upper-cases
      the mnemonic first: a mnemonic that names a table entry only once
      upper-cased (`push`, `Jmp`) is unknown to the one and known to the
      other. */
  lemma {:induction false} LowerCaseMnemonic(name: string)
    requires PyText.Upper(name) in PyAsm.OPCODES && name != PyText.Upper(name)
    ensures name !in PyAsm.OPCODES
    ensures CAsm.LookupOpcode(CAsm.OPCODES, name) == None
  {
    TablesAgree(name);
    if name in PyAsm.OPCODES {
      KeysAreUpper(name);
    }
  }

  // ---- A whole program ---------------------------------------------------

  /** `PUSH v` then `HALT`, as either assembler writes it, run from the
      state `reset()` leaves: two steps push v and halt, and `getResult()`
      is v. */
  lemma {:induction false} PushThenHalt(code: seq<byte>, v: int32)
    requires |code| == 6 && code[0] == 0x01 && code[1..5] == PyAsm.PackBE32(v) && code[5] == 0xFF
    ensures Run(code, Initial(), 2) == Initial().(stack := [v], pc := 6, running := false)
    ensures Result(Run(code, Initial(), 2)) == v
  {
    var m := Initial();
    OperandOfPacked(code, 0, v);
    PushStep(code, m);
    var m1 := m.(stack := [v], pc := 5);
    assert Step(code, m) == m1;
    StepHalts(code, m1);
    RunTwo(code, m, m1, m1.(pc := 6, running := false));
  }

  /** A JMP at p whose target is the last byte of its own operand, a byte
      that is no opcode (as in the output of the misplaced-label finding,
      `FF 20 00 00 00 05`, run from offset 1): one step jumps there, the
      next consumes that byte and halts. */
  lemma {:induction false} JumpIntoOwnOperand(code: seq<byte>, m: Machine)
    requires Fits(code, m) && m.running && m.pc + 5 <= |code| && code[m.pc] == 0x20
    requires Operand(code, m.pc) == m.pc + 4 && !IsOpcode(code[m.pc + 4])
    ensures Run(code, m, 2) == m.(pc := m.pc + 5, running := false)
  {
    var m1 := m.(pc := m.pc + 4);
    JumpStep(code, m);
    assert Step(code, m) == m1;
    StepHalts(code, m1);
    RunTwo(code, m, m1, m.(pc := m.pc + 5, running := false));
  }

  /** `fetchInt32()` succeeds exactly when four bytes remain; it then moves
      `pc` past them and returns the word whose packing they are, and
      otherwise returns 0 and leaves `pc` where it was. */
  lemma {:induction false} FetchReadsWord(code: seq<byte>, pc: uint32)
    requires pc <= |code| < TWO_32 - 4
    ensures Fetch(code, pc).ok <==> pc + 4 <= |code|
    ensures Fetch(code, pc).ok ==> Fetch(code, pc).pc == pc + 4 && PyAsm.PackBE32(Fetch(code, pc).value) == code[pc..pc + 4]
    ensures !Fetch(code, pc).ok ==> Fetch(code, pc) == Fetched(0, pc, false)
  {
    if pc + 4 <= |code| {
      PackDecode(code[pc], code[pc + 1], code[pc + 2], code[pc + 3]);
      assert code[pc..pc + 4] == [code[pc], code[pc + 1], code[pc + 2], code[pc + 3]];
    }
  }

  /** On a run of decimal digits `atoi` and `int()` agree. */
  lemma {:induction false} DigitRunIsDigits(s: string)
    requires forall i :: 0 <= i < |s| ==> CText.IsCDigit(s[i])
    ensures CText.DigitRunValue(s) == PyText.DigitsValue(s)
    decreases |s|
  {
    if s != [] {
      DigitRunIsDigits(s[..|s| - 1]);
    }
  }

  /** `atoi` reads back the decimal spelling of an integer, the spelling
      `int()` reads back too: a number written for one assembler means the
      same to the other while it fits in 32 bits. */
  lemma {:induction false} AtoiOfDecimal(n: int)
    ensures CText.AtoiValue(PyText.Decimal(n)) == n
    ensures IsInt32(n) ==> CText.Atoi(PyText.Decimal(n)) == n
  {
    var s := PyText.Decimal(n);
    var m := if n < 0 then -n else n;
    var u := PyText.NatDigits(m);
    Strings.SpanLenIs(CText.IsCSpace, s, 0);
    assert s[0..] == s;
    if n < 0 {
      assert s[1..] == u;
    }
    Strings.SpanLenIs(CText.IsCDigit, u, |u|);
    assert u[..|u|] == u;
    DigitRunIsDigits(u);
    PyText.DigitsValueOfNatDigits(m);
  }
}
