/** Reading asm.py's output back the way vm.cpp's `step()` reads it: an
    opcode byte, then a 4-byte operand exactly when the opcode's case
    calls `fetchInt32()`. The assembler sizes an instruction by its token
    count, not by its opcode, so the bytecode reads back as the source's
    instructions only when each record has an operand token exactly when
    its opcode takes one. */
module Disassembly {
  import opened Words
  import opened Wrappers
  import opened PyText
  import opened PyAsm
  import opened PyAsmProperties
  import opened VmProperties
  import Agreement

  /** One instruction as read back: its opcode and, for an opcode that
      takes one, its operand. */
  datatype Decoded = Decoded(opcode: byte, operand: Option<int32>)

  /** The bytes an instruction whose opcode is op occupies. */
  function Width(op: byte): (w: nat)
    ensures w == 1 || w == 5
  {
    if TakesOperand(op) then 5 else 1
  }

  /** The instruction at the front of the code. */
  function Head(code: seq<byte>): Decoded
    requires code != [] && Width(code[0]) <= |code|
  {
    if Width(code[0]) == 5 then Decoded(code[0], Some(DecodeBE32(code[1], code[2], code[3], code[4])))
    else Decoded(code[0], None)
  }

  /** The bytes split into whole instructions: no operand runs past the
      end. */
  predicate Whole(code: seq<byte>)
    decreases |code|
  {
    code == [] || (Width(code[0]) <= |code| && Whole(code[Width(code[0])..]))
  }

  /** The instructions whole bytes spell, first to last. */
  function Instructions(code: seq<byte>): seq<Decoded>
    requires Whole(code)
    decreases |code|
  {
    if code == [] then [] else [Head(code)] + Instructions(code[Width(code[0])..])
  }

  /** The record's operand token is there exactly when its opcode takes
      an operand. */
  predicate OperandAgrees(r: Record) {
    Mnemonic(r.text) in OPCODES && (|Tokens(r.text)| > 1 <==> TakesOperand(OPCODES[Mnemonic(r.text)]))
  }

  /** d is what the record says: its opcode, and the value of its operand
      token (a label's address or an integer) when it has one. */
  predicate DecodesRecord(labels: map<string, nat>, r: Record, d: Decoded) {
    && Mnemonic(r.text) in OPCODES
    && d.opcode == OPCODES[Mnemonic(r.text)]
    && (d.operand.Some? <==> |Tokens(r.text)| > 1)
    && (d.operand.Some? ==> OperandValue(labels, StripTrailingCommas(Tokens(r.text)[1])) == Some(d.operand.value as int))
  }

  /** Reading whole instructions followed by more bytes reads the former,
      then the latter. */
  lemma {:induction false} WholeAppend(a: seq<byte>, b: seq<byte>)
    requires Whole(a)
    ensures Whole(a + b) <==> Whole(b)
    ensures Whole(b) ==> Instructions(a + b) == Instructions(a) + Instructions(b)
    decreases |a|
  {
    if a == [] {
      assert a + b == b;
    } else {
      var w := Width(a[0]);
      var ab := a + b;
      assert ab[0] == a[0] && ab[w..] == a[w..] + b;
      WholeAppend(a[w..], b);
      if Whole(b) {
        assert Head(ab) == Head(a);
        var rest, y := Instructions(a[w..]), Instructions(b);
        assert [Head(a)] + (rest + y) == ([Head(a)] + rest) + y;
      }
    }
  }

  /** An opcode that takes an operand, followed by a packed operand, reads
      back as that instruction. */
  lemma {:induction false} ReadWithOperand(op: byte, v: int32, bs: seq<byte>)
    requires TakesOperand(op) && bs == [op] + PackBE32(v)
    ensures Whole(bs) && Instructions(bs) == [Decoded(op, Some(v))]
  {
    var p := PackBE32(v);
    Agreement.DecodePack(v);
    assert bs[0] == op && bs[1] == p[0] && bs[2] == p[1] && bs[3] == p[2] && bs[4] == p[3];
    assert bs[5..] == [];
    assert [Decoded(op, Some(v))] + [] == [Decoded(op, Some(v))];
  }

  /** An opcode that takes no operand, alone, reads back as that
      instruction. */
  lemma {:induction false} ReadBare(op: byte, bs: seq<byte>)
    requires !TakesOperand(op) && bs == [op]
    ensures Whole(bs) && Instructions(bs) == [Decoded(op, None)]
  {
    assert bs[1..] == [];
    assert [Decoded(op, None)] + [] == [Decoded(op, None)];
  }

  /** The bytes of a record: its opcode, then its argument bytes. */
  lemma {:induction false} RecordBytes(labels: map<string, nat>, r: Record)
    requires EncodeRecord(labels, r).Ok?
    ensures ArgumentBytes(labels, r.text, r.lineNo).Ok?
    ensures EncodeRecord(labels, r).value == [OPCODES[Mnemonic(r.text)]] + ArgumentBytes(labels, r.text, r.lineNo).value
  {
  }

  /** The bytes of a record whose operand agrees with its opcode read back
      as that one instruction. */
  lemma {:induction false} RecordDisassembles(labels: map<string, nat>, r: Record)
    requires EncodeRecord(labels, r).Ok? && OperandAgrees(r)
    ensures var bs := EncodeRecord(labels, r).value;
      Whole(bs) && |Instructions(bs)| == 1 && DecodesRecord(labels, r, Instructions(bs)[0])
  {
    var bs := EncodeRecord(labels, r).value;
    var op := OPCODES[Mnemonic(r.text)];
    RecordBytes(labels, r);
    var parts := Tokens(r.text);
    if |parts| > 1 {
      var arg := StripTrailingCommas(parts[1]);
      var v := OperandValue(labels, arg).value;
      assert ArgumentBytes(labels, r.text, r.lineNo) == Ok(PackBE32(v));
      ReadWithOperand(op, v, bs);
    } else {
      ReadBare(op, bs);
    }
  }

  /** Pass 2's output for records whose operands agree with their opcodes
      reads back as those records, one instruction each, in order. */
  lemma {:induction false} Pass2Disassembles(labels: map<string, nat>, records: seq<Record>)
    requires Pass2Spec(labels, records).Ok?
    requires forall k :: 0 <= k < |records| ==> OperandAgrees(records[k])
    ensures var out := Pass2Spec(labels, records).value;
      && Whole(out) && |Instructions(out)| == |records|
      && forall k :: 0 <= k < |records| ==> DecodesRecord(labels, records[k], Instructions(out)[k])
    decreases |records|
  {
    if records == [] {
      assert Pass2Spec(labels, records) == Ok([]);
    } else {
      var n := |records|;
      var init := records[..n - 1];
      var encs := Encodings(labels, records);
      EncodingsPrefix(labels, records, n - 1);
      EmitPrefix(encs, n - 1);
      assert encs[..n] == encs;
      var before := Pass2Spec(labels, init).value;
      var last := EncodeRecord(labels, records[n - 1]).value;
      assert Pass2Spec(labels, records).value == before + last;
      Pass2Disassembles(labels, init);
      RecordDisassembles(labels, records[n - 1]);
      WholeAppend(before, last);
      var ds := Instructions(before + last);
      forall k | 0 <= k < n
        ensures DecodesRecord(labels, records[k], ds[k])
      {
        if k < n - 1 {
          assert records[k] == init[k];
        }
      }
    }
  }

  /** The round trip: when every record of the source has an operand token
      exactly when its opcode takes one, the assembled bytecode reads back
      as the source's instructions in order, each with its opcode and the
      value of its operand. */
  lemma {:induction false} AssemblyDisassembles(lines: seq<string>)
    requires Pass1Spec(lines).Ok? && AssembleSpec(lines).Ok?
    requires forall k :: 0 <= k < |Pass1Spec(lines).value.records| ==> OperandAgrees(Pass1Spec(lines).value.records[k])
    ensures var recs, out := Pass1Spec(lines).value.records, AssembleSpec(lines).value;
      && Whole(out.bytecode) && |Instructions(out.bytecode)| == |recs|
      && forall k :: 0 <= k < |recs| ==> DecodesRecord(out.labels, recs[k], Instructions(out.bytecode)[k])
  {
    var st := Pass1Spec(lines).value;
    Pass2Disassembles(st.labels, st.records);
  }

  /** An operand on an instruction whose opcode takes none (`HALT 5`) is
      still written, and its four bytes read back as opcodes of their own:
      the record does not read back as one instruction. */
  lemma {:induction false} SurplusOperand(labels: map<string, nat>, r: Record)
    requires EncodeRecord(labels, r).Ok? && |Tokens(r.text)| > 1
    requires !TakesOperand(OPCODES[Mnemonic(r.text)])
    ensures var bs := EncodeRecord(labels, r).value;
      !Whole(bs) || (|Instructions(bs)| > 1 && Instructions(bs)[0] == Decoded(OPCODES[Mnemonic(r.text)], None))
  {
    RecordBytes(labels, r);
    SurplusBytes(OPCODES[Mnemonic(r.text)], EncodeRecord(labels, r).value);
  }

  lemma {:induction false} SurplusBytes(op: byte, bs: seq<byte>)
    requires !TakesOperand(op) && |bs| == 5 && bs[0] == op
    ensures !Whole(bs) || (|Instructions(bs)| > 1 && Instructions(bs)[0] == Decoded(op, None))
  {
    if Whole(bs) {
      assert bs[1..] != [];
    }
  }

  /** `HALT 5` is written as `FF 00 00 00 05`, which reads back as five
      instructions: HALT, then three bytes 0x00 and a byte 0x05, none of
      them an opcode of the machine. */
  lemma {:induction false} HaltFive(bs: seq<byte>)
    requires bs == [0xFF] + PackBE32(5)
    ensures Whole(bs) && |Instructions(bs)| == 5
    ensures Instructions(bs)[0] == Decoded(0xFF, None) && Instructions(bs)[4] == Decoded(5, None)
  {
    assert bs == [0xFF, 0, 0, 0, 5];
    BareCons(5, []);
    BareCons(0, [5]);
    BareCons(0, [0, 5]);
    BareCons(0, [0, 0, 5]);
    BareCons(0xFF, [0, 0, 0, 5]);
  }

  /** A byte that takes no operand, in front of whole bytes, is one more
      instruction. */
  lemma {:induction false} BareCons(op: byte, rest: seq<byte>)
    requires !TakesOperand(op) && Whole(rest)
    ensures Whole([op] + rest) && Instructions([op] + rest) == [Decoded(op, None)] + Instructions(rest)
  {
    assert ([op] + rest)[1..] == rest;
  }

  /** An instruction whose opcode takes an operand but that has no operand
      token (`PUSH`) is written as its opcode alone, which does not read
      back at all: its operand would be the next four bytes. */
  lemma {:induction false} MissingOperand(labels: map<string, nat>, r: Record)
    requires EncodeRecord(labels, r).Ok? && |Tokens(r.text)| <= 1
    requires TakesOperand(OPCODES[Mnemonic(r.text)])
    ensures |EncodeRecord(labels, r).value| == 1
    ensures !Whole(EncodeRecord(labels, r).value)
  {
  }
}
