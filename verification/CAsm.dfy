/** asm.c: the C two-pass assembler, as written. Pass 1 fills fixed arrays
    of labels and instructions, sizing an instruction by whether its text
    contains a space; Pass 2 streams opcode and operand bytes to the output
    file, resolving an operand as the first label of that name or else with
    `atoi`, and gives up at an unknown mnemonic after the bytes of the
    earlier instructions are already written. A second, corrected variant
    of the line rules sits beside the as-written one (see CAsmProperties). */
module CAsm {
  import opened Words
  import opened Wrappers
  import opened Strings
  import opened CText

  const MAX_LINES: nat := 4096
  const MAX_LABELS: nat := 512
  const MAX_LINE: nat := 256
  /** The size of `Label.name`, terminating NUL included. */
  const MAX_NAME: nat := 64

  datatype Label = Label(name: string, addr: uint32)
  datatype Instruction = Instruction(lineNo: nat, text: string)
  datatype Opcode = Opcode(name: string, opcode: byte)

  /** The opcode table, searched front to back. */
  const OPCODES: seq<Opcode> := [
    Opcode("PUSH", 0x01), Opcode("POP", 0x02), Opcode("DUP", 0x03), Opcode("HALT", 0xFF),
    Opcode("ADD", 0x10), Opcode("SUB", 0x11), Opcode("MUL", 0x12), Opcode("DIV", 0x13), Opcode("CMP", 0x14),
    Opcode("JMP", 0x20), Opcode("JZ", 0x21), Opcode("JNZ", 0x22),
    Opcode("STORE", 0x30), Opcode("LOAD", 0x31),
    Opcode("CALL", 0x40), Opcode("RET", 0x41)]

  /** The code of the first entry of the table named exactly name
      (`strcmp` equality: case-sensitive). */
  function LookupOpcode(table: seq<Opcode>, name: string): Option<byte> {
    if table == [] then None
    else if table[0].name == name then Some(table[0].opcode)
    else LookupOpcode(table[1..], name)
  }

  /** LookupOpcode finds a code exactly when an entry has the name, and the
      code it finds is that of an entry with the name. */
  lemma {:induction false} LookupOpcodeFinds(table: seq<Opcode>, name: string)
    ensures LookupOpcode(table, name).None? <==> forall i :: 0 <= i < |table| ==> table[i].name != name
    ensures LookupOpcode(table, name).Some? ==>
      exists i :: 0 <= i < |table| && table[i] == Opcode(name, LookupOpcode(table, name).value)
  {
    if table != [] && table[0].name != name {
      LookupOpcodeFinds(table[1..], name);
      assert forall i :: 1 <= i < |table| ==> table[i] == table[1..][i - 1];
    }
  }

  /** The address of the first label named exactly name. */
  function FirstLabel(labels: seq<Label>, name: string): Option<uint32> {
    if labels == [] then None
    else if labels[0].name == name then Some(labels[0].addr)
    else FirstLabel(labels[1..], name)
  }

  /** FirstLabel finds an address exactly when a label has the name, and
      then the address of the first such label. */
  lemma {:induction false} FirstLabelFinds(labels: seq<Label>, name: string)
    ensures FirstLabel(labels, name).None? <==> forall i :: 0 <= i < |labels| ==> labels[i].name != name
    ensures FirstLabel(labels, name).Some? ==>
      exists i :: 0 <= i < |labels| && labels[i] == Label(name, FirstLabel(labels, name).value) &&
        forall j :: 0 <= j < i ==> labels[j].name != name
  {
    if labels != [] && labels[0].name != name {
      FirstLabelFinds(labels[1..], name);
      assert forall i :: 1 <= i < |labels| ==> labels[i] == labels[1..][i - 1];
    }
  }

  /** `find_opcode`: a linear search of the table; on a miss `found` is 0
      and so is the code returned. */
  method FindOpcode(name: string) returns (opcode: byte, found: bool)
    ensures found == LookupOpcode(OPCODES, name).Some?
    ensures opcode == if found then LookupOpcode(OPCODES, name).value else 0
  {
    for i := 0 to |OPCODES|
      invariant LookupOpcode(OPCODES[i..], name) == LookupOpcode(OPCODES, name)
    {
      if OPCODES[i].name == name {
        return OPCODES[i].opcode, true;
      }
      assert OPCODES[i..][1..] == OPCODES[i + 1..];
    }
    return 0, false;
  }

  /** `find_label`: a linear search of the first count labels; on a hit
      the address goes to `*out`, on a miss `*out` keeps the value it had. */
  method FindLabel(labels: array<Label>, count: int, name: string, out: uint32) returns (found: bool, addr: uint32)
    requires 0 <= count <= labels.Length
    ensures found == FirstLabel(labels[..count], name).Some?
    ensures addr == if found then FirstLabel(labels[..count], name).value else out
  {
    for i := 0 to count
      invariant FirstLabel(labels[i..count], name) == FirstLabel(labels[..count], name)
    {
      if labels[i].name == name {
        return true, labels[i].addr;
      }
      assert labels[i..count][1..] == labels[i + 1..count];
    }
    return false, out;
  }

  /** `write_be32`: bits 31-24, 23-16, 15-8 and 7-0 of v, in that order.
      An arithmetic right shift is floor division by a power of two, and
      `& 0xFF` the non-negative remainder modulo 256. */
  function WriteBE32(v: int32): (bs: seq<byte>)
    ensures |bs| == 4
  {
    [(v / 0x100_0000) % 0x100, (v / 0x1_0000) % 0x100, (v / 0x100) % 0x100, v % 0x100]
  }

  /** The corrections to the as-written line rules (see CAsmProperties). */
  datatype Variant = AsWritten | Corrected

  /** What Pass 1 makes of one line read by `fgets`. */
  datatype CLine = Skip | LabelAt(name: string) | Instr(text: string)

  /** The text Pass 1 keeps of a line: cut at the first ';', then the first
      `strtok` token over CR and LF; empty stands for a NULL token. */
  function LineText(raw: string): string {
    match Strtok(BeforeFirst(raw, ';'), IsCrLf)
    case None => []
    case Some(sp) => sp.token
  }

  /** The mnemonic token `strtok(buf, " ")` finds, and the operand token a
      following `strtok(NULL, " ,")` finds, if any. */
  function MnemonicToken(text: string): Option<Split> {
    Strtok(text, IsBlank)
  }

  function ArgToken(text: string): Option<Split> {
    match MnemonicToken(text)
    case None => None
    case Some(m) => Strtok(m.rest, IsArgDelim)
  }

  /** The line's role. As written, a line whose last character is ':'
      declares the untrimmed name before it, and any other non-empty text is
      an instruction; the corrected rules also skip text of spaces only. */
  function ClassifyC(raw: string, v: Variant): (l: CLine)
    ensures v == Corrected && l.Instr? ==> MnemonicToken(l.text).Some?
  {
    var s := LineText(raw);
    if s == [] then Skip
    else if s[|s| - 1] == ':' then LabelAt(s[..|s| - 1])
    else if v == Corrected && MnemonicToken(s).None? then Skip
    else Instr(s)
  }

  /** The bytes Pass 1 counts for an instruction: the opcode, plus 4 as
      written when the text contains a space, or when Pass 2 will find an
      operand token under the corrected rules. */
  function Size(text: string, v: Variant): nat {
    1 + if (if v == AsWritten then ' ' in text else ArgToken(text).Some?) then 4 else 0
  }

  /** The label and instruction arrays (as sequences of the entries in use)
      and `pc`. */
  datatype CPass1 = CPass1(labels: seq<Label>, instrs: seq<Instruction>, pc: uint32)

  /** Pass 1 applied to a line, numbered lineNo, of role l. There is no
      duplicate check: a repeated name is appended again. */
  function ScanLineC(st: CPass1, l: CLine, lineNo: nat, v: Variant): CPass1 {
    match l
    case Skip => st
    case LabelAt(name) => st.(labels := st.labels + [Label(name, st.pc)])
    case Instr(text) =>
      st.(instrs := st.instrs + [Instruction(lineNo, text)], pc := ToUnsigned(st.pc + Size(text, v)))
  }

  /** Pass 1 over the roles of the lines, the k-th numbered k + 1. */
  function ScanC(ls: seq<CLine>, v: Variant): CPass1
    decreases |ls|
  {
    if ls == [] then CPass1([], [], 0)
    else ScanLineC(ScanC(ls[..|ls| - 1], v), ls[|ls| - 1], |ls|, v)
  }

  function ClassifiedC(lines: seq<string>, v: Variant): seq<CLine> {
    seq(|lines|, i requires 0 <= i < |lines| => ClassifyC(lines[i], v))
  }

  function Pass1C(lines: seq<string>, v: Variant): CPass1 {
    ScanC(ClassifiedC(lines, v), v)
  }

  /** Why Pass 2 stopped: an unknown mnemonic, reported with its line and
      exit status 1, or a text with no mnemonic token, where asm.c hands
      NULL to `strcmp` and its behaviour is undefined. */
  datatype Fault = UnknownInstruction(mnemonic: string, lineNo: nat) | NoMnemonic(lineNo: nat)

  /** The bytes handed to `fputc`, and the fault that ended Pass 2 early. */
  datatype Outcome = Outcome(written: seq<byte>, fault: Option<Fault>)

  /** What Pass 2 makes of one instruction. */
  datatype Encoding = Encoded(bytes: seq<byte>) | Failed(fault: Fault)

  /** The operand bytes: none without an operand token; otherwise the first
      label of that name, cast to `int32_t`, or else `atoi` of the token. */
  function OperandBytes(labels: seq<Label>, arg: Option<Split>): (bs: seq<byte>)
    ensures |bs| == if arg.Some? then 4 else 0
  {
    match arg
    case None => []
    case Some(a) =>
      match FirstLabel(labels, a.token)
      case Some(addr) => WriteBE32(Wrap32(addr))
      case None => WriteBE32(Atoi(a.token))
  }

  /** Pass 2 applied to one instruction: the opcode of the exact mnemonic
      and the operand bytes, which number what the corrected sizing counts. */
  function EncodeC(labels: seq<Label>, ins: Instruction): (r: Encoding)
    ensures r.Encoded? ==> |r.bytes| == Size(ins.text, Corrected)
    ensures MnemonicToken(ins.text).None? <==> r.Failed? && r.fault.NoMnemonic?
  {
    match MnemonicToken(ins.text)
    case None => Failed(NoMnemonic(ins.lineNo))
    case Some(m) =>
      match LookupOpcode(OPCODES, m.token)
      case None => Failed(UnknownInstruction(m.token, ins.lineNo))
      case Some(op) => Encoded([op] + OperandBytes(labels, Strtok(m.rest, IsArgDelim)))
  }

  /** A successful encoding starts with the code of its mnemonic token. */
  lemma {:induction false} EncodedStartsWithOpcode(labels: seq<Label>, ins: Instruction)
    requires EncodeC(labels, ins).Encoded?
    ensures MnemonicToken(ins.text).Some?
    ensures LookupOpcode(OPCODES, MnemonicToken(ins.text).value.token).Some?
    ensures EncodeC(labels, ins).bytes[0] == LookupOpcode(OPCODES, MnemonicToken(ins.text).value.token).value
  {
  }

  function EncodingsC(labels: seq<Label>, instrs: seq<Instruction>): seq<Encoding> {
    seq(|instrs|, k requires 0 <= k < |instrs| => EncodeC(labels, instrs[k]))
  }

  /** Streaming the encodings in order: all the bytes up to the first
      failure, and that failure. */
  function EmitC(encs: seq<Encoding>): Outcome
    decreases |encs|
  {
    if encs == [] then Outcome([], None)
    else
      var prev := EmitC(encs[..|encs| - 1]);
      if prev.fault.Some? then prev
      else
        match encs[|encs| - 1]
        case Encoded(bs) => Outcome(prev.written + bs, None)
        case Failed(f) => Outcome(prev.written, Some(f))
  }

  function Pass2C(labels: seq<Label>, instrs: seq<Instruction>): Outcome {
    EmitC(EncodingsC(labels, instrs))
  }

  function AssembleC(lines: seq<string>, v: Variant): Outcome {
    var p := Pass1C(lines, v);
    Pass2C(p.labels, p.instrs)
  }

  /** What the fixed buffers of asm.c can hold: each line whole in one
      `fgets` call and NUL-free, at most MAX_LABELS labels with names that
      fit `Label.name`, at most MAX_LINES instructions. The buffers count
      bytes, the UTF-8 encoding of the text. */
  predicate FitsBuffers(lines: seq<string>) {
    && (forall i :: 0 <= i < |lines| ==> Utf8Len(lines[i]) < MAX_LINE && '\0' !in lines[i])
    && |Pass1C(lines, AsWritten).labels| <= MAX_LABELS
    && |Pass1C(lines, AsWritten).instrs| <= MAX_LINES
    && (forall k :: 0 <= k < |Pass1C(lines, AsWritten).labels| ==>
          Utf8Len(Pass1C(lines, AsWritten).labels[k].name) < MAX_NAME)
  }

  /** The uint32 counter wraps once, however the increment is split. */
  lemma {:induction false} ToUnsignedAdd(x: int, y: int)
    ensures ToUnsigned(ToUnsigned(x) + y) == ToUnsigned(x + y)
  {
    var q := x / TWO_32;
    assert x == TWO_32 * q + ToUnsigned(x);
    assert (x + y) - (ToUnsigned(x) + y) == TWO_32 * q;
  }

  /** Pass 1's labels and instructions only grow: those of a prefix of the
      lines are prefixes of the final ones. */
  lemma {:induction false} ScanCPrefix(ls: seq<CLine>, i: nat, v: Variant)
    requires i <= |ls|
    ensures ScanC(ls[..i], v).labels <= ScanC(ls, v).labels
    ensures ScanC(ls[..i], v).instrs <= ScanC(ls, v).instrs
    decreases |ls| - i
  {
    if i < |ls| {
      ScanCPrefix(ls, i + 1, v);
      assert ls[..i + 1][..i] == ls[..i];
    } else {
      assert ls[..i] == ls;
    }
  }

  /** A label line (an instruction line) still ahead adds one label (one
      instruction) to those of the lines before it. */
  lemma {:induction false} ScanCRoom(ls: seq<CLine>, i: nat, v: Variant)
    requires i < |ls|
    ensures ls[i].LabelAt? ==> |ScanC(ls[..i], v).labels| < |ScanC(ls, v).labels|
    ensures ls[i].Instr? ==> |ScanC(ls[..i], v).instrs| < |ScanC(ls, v).instrs|
  {
    ScanCOneMore(ls, i, v);
    ScanCPrefix(ls, i + 1, v);
  }

  /** A scan extends the scan of all but the last line by that line's
      label or instruction. */
  lemma {:induction false} ScanCStep(ls: seq<CLine>, v: Variant)
    requires ls != []
    ensures var pre, st, l := ScanC(ls[..|ls| - 1], v), ScanC(ls, v), ls[|ls| - 1];
      && st.labels == pre.labels + (if l.LabelAt? then [Label(l.name, pre.pc)] else [])
      && st.instrs == pre.instrs + (if l.Instr? then [Instruction(|ls|, l.text)] else [])
  {
  }

  /** Scanning one more line applies ScanLineC to the state reached. */
  lemma {:induction false} ScanCOneMore(ls: seq<CLine>, i: nat, v: Variant)
    requires i < |ls|
    ensures ScanC(ls[..i + 1], v) == ScanLineC(ScanC(ls[..i], v), ls[i], i + 1, v)
  {
    assert ls[..i + 1][..i] == ls[..i];
  }

  /** One iteration of Pass 1's `fgets` loop, on the arrays in place. */
  method ScanSourceLineC(raw: string, lineNo: nat, labels: array<Label>, labelCount: nat,
                         instr: array<Instruction>, instrCount: nat, pc: uint32)
    returns (labelCount': nat, instrCount': nat, pc': uint32)
    requires labelCount <= labels.Length && instrCount <= instr.Length
    requires ClassifyC(raw, AsWritten).LabelAt? ==> labelCount < labels.Length
    requires ClassifyC(raw, AsWritten).Instr? ==> instrCount < instr.Length
    modifies labels, instr
    ensures labelCount' <= labels.Length && instrCount' <= instr.Length
    ensures CPass1(labels[..labelCount'], instr[..instrCount'], pc') ==
      ScanLineC(CPass1(old(labels[..labelCount]), old(instr[..instrCount]), pc), ClassifyC(raw, AsWritten), lineNo, AsWritten)
  {
    labelCount', instrCount', pc' := labelCount, instrCount, pc;
    var comment := BeforeFirst(raw, ';');
    var s := Strtok(comment, IsCrLf);
    if s.None? {
      return;
    }
    var text := s.value.token;
    var len := |text|;
    assert LineText(raw) == text;
    if text[len - 1] == ':' {
      labels[labelCount] := Label(text[..len - 1], pc);
      labelCount' := labelCount + 1;
      assert labels[..labelCount'] == old(labels[..labelCount]) + [Label(text[..len - 1], pc)];
    } else {
      instr[instrCount] := Instruction(lineNo, text);
      instrCount' := instrCount + 1;
      assert instr[..instrCount'] == old(instr[..instrCount]) + [Instruction(lineNo, text)];
      pc' := ToUnsigned(pc + 1);
      if ' ' in text {
        ToUnsignedAdd(pc + 1, 4);
        pc' := ToUnsigned(pc' + 4);
      }
    }
  }

  /** Pass 1 as asm.c runs it: one `fgets` loop filling the label and
      instruction arrays and advancing `pc`. */
  method Pass1(lines: seq<string>, labels: array<Label>, instr: array<Instruction>)
    returns (labelCount: nat, instrCount: nat, pc: uint32)
    requires labels.Length == MAX_LABELS && instr.Length == MAX_LINES
    requires FitsBuffers(lines)
    modifies labels, instr
    ensures labelCount <= labels.Length && instrCount <= instr.Length
    ensures CPass1(labels[..labelCount], instr[..instrCount], pc) == Pass1C(lines, AsWritten)
  {
    ghost var ls := ClassifiedC(lines, AsWritten);
    ghost var total := ScanC(ls, AsWritten);
    assert |total.labels| <= labels.Length && |total.instrs| <= instr.Length;
    labelCount, instrCount, pc := 0, 0, 0;
    for i := 0 to |lines|
      invariant labelCount <= labels.Length && instrCount <= instr.Length
      invariant CPass1(labels[..labelCount], instr[..instrCount], pc) == ScanC(ls[..i], AsWritten)
    {
      ScanCOneMore(ls, i, AsWritten);
      ScanCRoom(ls, i, AsWritten);
      assert ls[i] == ClassifyC(lines[i], AsWritten);
      labelCount, instrCount, pc := ScanSourceLineC(lines[i], i + 1, labels, labelCount, instr, instrCount, pc);
    }
    assert ls[..|lines|] == ls;
  }

  /** Emitting one more encoding appends its bytes, records its failure, or
      keeps an earlier failure. */
  lemma {:induction false} EmitCOneMore(encs: seq<Encoding>, k: nat)
    requires k < |encs|
    ensures EmitC(encs[..k + 1]) ==
      var prev := EmitC(encs[..k]);
      if prev.fault.Some? then prev
      else match encs[k]
        case Encoded(bs) => Outcome(prev.written + bs, None)
        case Failed(f) => Outcome(prev.written, Some(f))
  {
    assert encs[..k + 1][..k] == encs[..k];
  }

  /** After a failure, further encodings change nothing. */
  lemma {:induction false} EmitCFaultPersists(encs: seq<Encoding>, k: nat)
    requires k <= |encs| && EmitC(encs[..k]).fault.Some?
    ensures EmitC(encs) == EmitC(encs[..k])
    decreases |encs| - k
  {
    if k < |encs| {
      assert encs[..k + 1][..k] == encs[..k];
      EmitCFaultPersists(encs, k + 1);
    } else {
      assert encs[..k] == encs;
    }
  }

  /** The body of Pass 2's loop for one instruction: tokenize a copy of the
      text, look the mnemonic up, and produce its code and then the operand
      bytes if there is a token for one; or the reason to stop. */
  method EncodeInstruction(labels: array<Label>, labelCount: nat, ins: Instruction) returns (enc: Encoding)
    requires labelCount <= labels.Length
    ensures enc == EncodeC(labels[..labelCount], ins)
  {
    var buf := ins.text;
    var mnemonic := Strtok(buf, IsBlank);
    if mnemonic.None? {
      return Failed(NoMnemonic(ins.lineNo));
    }
    var arg := Strtok(mnemonic.value.rest, IsArgDelim);
    var opcode, found := FindOpcode(mnemonic.value.token);
    if !found {
      return Failed(UnknownInstruction(mnemonic.value.token, ins.lineNo));
    }
    var operand := WriteOperand(labels, labelCount, arg);
    enc := Encoded([opcode] + operand);
  }

  /** The operand part of Pass 2's loop body: nothing without an operand
      token, else the first label's address or `atoi` of the token. */
  method WriteOperand(labels: array<Label>, labelCount: nat, arg: Option<Split>) returns (bytes: seq<byte>)
    requires labelCount <= labels.Length
    ensures bytes == OperandBytes(labels[..labelCount], arg)
  {
    bytes := [];
    if arg.Some? {
      var hit, val := FindLabel(labels, labelCount, arg.value.token, 0);
      if hit {
        bytes := WriteBE32(Wrap32(val));
      } else {
        bytes := WriteBE32(Atoi(arg.value.token));
      }
    }
  }

  /** Pass 2 as asm.c runs it: one loop over the instruction array writing
      to the output file, returning at the first failing instruction with
      what was written so far left in the file. */
  method Pass2(labels: array<Label>, labelCount: nat, instr: array<Instruction>, instrCount: nat)
    returns (out: Outcome)
    requires labelCount <= labels.Length && instrCount <= instr.Length
    ensures out == Pass2C(labels[..labelCount], instr[..instrCount])
  {
    ghost var encs := EncodingsC(labels[..labelCount], instr[..instrCount]);
    var written: seq<byte> := [];
    for i := 0 to instrCount
      invariant EmitC(encs[..i]) == Outcome(written, None)
    {
      EmitCOneMore(encs, i);
      assert encs[i] == EncodeC(labels[..labelCount], instr[i]);
      var enc := EncodeInstruction(labels, labelCount, instr[i]);
      if enc.Failed? {
        EmitCFaultPersists(encs, i + 1);
        return Outcome(written, Some(enc.fault));
      }
      written := written + enc.bytes;
    }
    assert encs[..instrCount] == encs;
    out := Outcome(written, None);
  }

  /** asm.c's `main` from the lines read to the bytes written: Pass 1 into
      fresh arrays, then Pass 2 over them. */
  method Assemble(lines: seq<string>) returns (out: Outcome)
    requires FitsBuffers(lines)
    ensures out == AssembleC(lines, AsWritten)
  {
    var labels := new Label[MAX_LABELS](_ => Label([], 0));
    var instr := new Instruction[MAX_LINES](_ => Instruction(0, []));
    var labelCount, instrCount, pc := Pass1(lines, labels, instr);
    out := Pass2(labels, labelCount, instr, instrCount);
  }
}
