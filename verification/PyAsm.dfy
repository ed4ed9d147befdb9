/** asm.py: the two-pass assembler. Pass 1 scans the source lines, binding
    each label to the byte address of the next instruction and sizing each
    instruction; Pass 2 encodes every instruction as an opcode byte and an
    optional 4-byte big-endian operand. Any error returns before the output
    is written, so the result is either the whole bytecode or an error. */
module PyAsm {
  import opened Words
  import opened Wrappers
  import opened Strings
  import opened PyText

  /** The mnemonic table: sixteen instructions and their opcode bytes. */
  const OPCODES: map<string, byte> := map[
    "PUSH" := 0x01, "POP" := 0x02, "DUP" := 0x03, "HALT" := 0xFF,
    "ADD" := 0x10, "SUB" := 0x11, "MUL" := 0x12, "DIV" := 0x13, "CMP" := 0x14,
    "JMP" := 0x20, "JZ" := 0x21, "JNZ" := 0x22,
    "STORE" := 0x30, "LOAD" := 0x31, "CALL" := 0x40, "RET" := 0x41]

  /** An instruction as Pass 1 keeps it: its 1-based line number and its
      text with the comment and surrounding whitespace removed. */
  datatype Record = Record(lineNo: nat, text: string)

  datatype AsmError =
    | DuplicateLabel(name: string, lineNo: nat)
    | UnknownInstruction(mnemonic: string, lineNo: nat)
    | InvalidArgument(arg: string, lineNo: nat)
      /** `struct.pack('>i', val)` raising for a value outside 32 bits */
    | ArgumentOutOfRange(value: int, lineNo: nat)

  datatype Result<T> = Ok(value: T) | Err(error: AsmError)

  /** What Pass 1 makes of one source line. */
  datatype Line = Blank | LabelDecl(name: string) | Instr(text: string)

  /** The label table, the instruction records and the running address. */
  datatype Pass1State = Pass1State(labels: map<string, nat>, records: seq<Record>, addr: nat)

  /** A successful assembly: the labels found and the bytecode written. */
  datatype Assembled = Assembled(labels: map<string, nat>, bytecode: seq<byte>)

  /** A line reduced to the text before its first ';', stripped; empty text
      is blank, text ending in ':' declares the stripped name before the
      colon, anything else is an instruction. */
  function Classify(raw: string): (l: Line)
  {
    var line := Strip(BeforeFirst(raw, ';'));
    if line == [] then Blank
    else if line[|line| - 1] == ':' then LabelDecl(Strip(line[..|line| - 1]))
    else Instr(line)
  }

  /** The bytes an instruction occupies: the opcode, plus a 4-byte operand
      when the text splits into more than one token. */
  function InstrSize(text: string): nat {
    if |Tokens(text)| > 1 then 5 else 1
  }

  /** The bytes Pass 1 counts for a list of records. */
  function TotalSize(records: seq<Record>): nat {
    if records == [] then 0 else TotalSize(records[..|records| - 1]) + InstrSize(records[|records| - 1].text)
  }

  predicate WellFormed(records: seq<Record>) {
    forall k :: 0 <= k < |records| ==> Tokens(records[k].text) != []
  }

  /** Pass 1 applied to a line, numbered lineNo, that classifies as l. */
  function ScanLine(st: Pass1State, l: Line, lineNo: nat): Result<Pass1State> {
    match l
    case Blank => Ok(st)
    case LabelDecl(name) =>
      if name in st.labels then Err(DuplicateLabel(name, lineNo))
      else Ok(st.(labels := st.labels[name := st.addr]))
    case Instr(text) =>
      Ok(st.(records := st.records + [Record(lineNo, text)], addr := st.addr + InstrSize(text)))
  }

  /** Pass 1 over classified lines, the k-th numbered k + 1; the first
      error stops it. */
  function Scan(ls: seq<Line>): Result<Pass1State>
    decreases |ls|
  {
    if ls == [] then Ok(Pass1State(map[], [], 0))
    else
      match Scan(ls[..|ls| - 1])
      case Err(e) => Err(e)
      case Ok(st) => ScanLine(st, ls[|ls| - 1], |ls|)
  }

  /** Scanning one more line applies ScanLine to the state reached. */
  lemma {:induction false} ScanOneMore(ls: seq<Line>, i: nat)
    requires i < |ls| && Scan(ls[..i]).Ok?
    ensures Scan(ls[..i + 1]) == ScanLine(Scan(ls[..i]).value, ls[i], i + 1)
  {
    assert ls[..i + 1][..i] == ls[..i];
  }

  /** A successful scan extends the scan of all but the last line: by one
      record if that line is an instruction, by nothing otherwise. */
  lemma {:induction false} ScanStep(ls: seq<Line>)
    requires ls != [] && Scan(ls).Ok?
    ensures Scan(ls[..|ls| - 1]).Ok?
    ensures var before, recs := Scan(ls[..|ls| - 1]).value.records, Scan(ls).value.records;
      recs == if ls[|ls| - 1].Instr? then before + [Record(|ls|, ls[|ls| - 1].text)] else before
  {
  }

  /** Every record a successful scan keeps is an instruction line, kept
      with its number and its text. */
  lemma {:induction false} ScanRecordsAreInstructions(ls: seq<Line>)
    requires Scan(ls).Ok?
    ensures var recs := Scan(ls).value.records;
      forall k :: 0 <= k < |recs| ==> 1 <= recs[k].lineNo <= |ls| && ls[recs[k].lineNo - 1] == Instr(recs[k].text)
    decreases |ls|
  {
    if ls != [] {
      var init := ls[..|ls| - 1];
      ScanStep(ls);
      ScanRecordsAreInstructions(init);
      var before := Scan(init).value.records;
      var recs := Scan(ls).value.records;
      forall k | 0 <= k < |recs|
        ensures 1 <= recs[k].lineNo <= |ls| && ls[recs[k].lineNo - 1] == Instr(recs[k].text)
      {
        if k < |before| {
          assert recs[k] == before[k];
          assert init[before[k].lineNo - 1] == ls[before[k].lineNo - 1];
        }
      }
    }
  }

  /** An instruction line's text has a first token and does not end in
      ':'. */
  lemma {:induction false} ClassifiedInstruction(raw: string)
    requires Classify(raw).Instr?
    ensures var text := Classify(raw).text; Tokens(text) != [] && text[|text| - 1] != ':'
  {
  }

  function Classified(lines: seq<string>): (ls: seq<Line>)
    ensures |ls| == |lines|
  {
    if lines == [] then [] else Classified(lines[..|lines| - 1]) + [Classify(lines[|lines| - 1])]
  }

  /** Line j of the classified list is the class of source line j. */
  lemma {:induction false} ClassifiedAt(lines: seq<string>, j: nat)
    requires j < |lines|
    ensures Classified(lines)[j] == Classify(lines[j])
    decreases |lines|
  {
    if j < |lines| - 1 {
      ClassifiedAt(lines[..|lines| - 1], j);
    }
  }

  /** Pass 1 over the source lines. */
  function Pass1Spec(lines: seq<string>): Result<Pass1State> {
    Scan(Classified(lines))
  }

  /** The operand a token denotes: a label's address first, otherwise the
      integer it spells. */
  function OperandValue(labels: map<string, nat>, arg: string): Option<int> {
    if arg in labels then Some(labels[arg]) else ParseInt(arg)
  }

  /** `struct.pack('>i', v)`: the two's-complement form of v, most
      significant byte first. */
  function PackBE32(v: int32): (bs: seq<byte>)
    ensures |bs| == 4
    ensures bs[0] >= 0x80 <==> v < 0
  {
    var u := if v < 0 then v + TWO_32 else v;
    [u / 0x100_0000, (u / 0x1_0000) % 0x100, (u / 0x100) % 0x100, u % 0x100]
  }

  /** The first token, upper-cased. Pass 1 never keeps a record without
      one; the empty name stands for that case and is no mnemonic. */
  function Mnemonic(text: string): string {
    var parts := Tokens(text);
    if parts == [] then "" else Upper(parts[0])
  }

  /** The operand bytes for the token arg: the label's address or the
      integer the token spells, packed as a signed 32-bit big-endian word. */
  function EncodeOperand(labels: map<string, nat>, arg: string, lineNo: nat): (res: Result<seq<byte>>)
    ensures res.Ok? ==> |res.value| == 4
    ensures res.Err? <==> OperandValue(labels, arg).None? || !IsInt32(OperandValue(labels, arg).value)
    ensures OperandValue(labels, arg).None? ==> res == Err(InvalidArgument(arg, lineNo))
    ensures OperandValue(labels, arg).Some? && !IsInt32(OperandValue(labels, arg).value) ==>
      res == Err(ArgumentOutOfRange(OperandValue(labels, arg).value, lineNo))
  {
    match OperandValue(labels, arg)
    case None => Err(InvalidArgument(arg, lineNo))
    case Some(v) => if IsInt32(v) then Ok(PackBE32(v)) else Err(ArgumentOutOfRange(v, lineNo))
  }

  /** The bytes after the opcode: nothing for a single token, otherwise
      the operand bytes of the second token with its trailing commas
      removed. */
  function ArgumentBytes(labels: map<string, nat>, text: string, lineNo: nat): (res: Result<seq<byte>>)
    ensures res.Ok? ==> |res.value| == InstrSize(text) - 1
  {
    var parts := Tokens(text);
    if |parts| <= 1 then Ok([])
    else EncodeOperand(labels, StripTrailingCommas(parts[1]), lineNo)
  }

  /** Pass 2 applied to one record. On success the bytes are the opcode of
      the upper-cased mnemonic followed by the argument bytes; the length
      is what Pass 1 counted. */
  function EncodeRecord(labels: map<string, nat>, r: Record): (res: Result<seq<byte>>)
    ensures res.Ok? ==> Mnemonic(r.text) in OPCODES
    ensures res.Ok? ==> |res.value| == InstrSize(r.text) && res.value[0] == OPCODES[Mnemonic(r.text)]
    ensures Mnemonic(r.text) !in OPCODES ==> res == Err(UnknownInstruction(Mnemonic(r.text), r.lineNo))
  {
    var mnemonic := Mnemonic(r.text);
    if mnemonic !in OPCODES then Err(UnknownInstruction(mnemonic, r.lineNo))
    else
      match ArgumentBytes(labels, r.text, r.lineNo)
      case Err(e) => Err(e)
      case Ok(operand) => Ok([OPCODES[mnemonic]] + operand)
  }

  /** The result of each record's encoding, in order. */
  function Encodings(labels: map<string, nat>, records: seq<Record>): seq<Result<seq<byte>>>
  {
    seq(|records|, k requires 0 <= k < |records| => EncodeRecord(labels, records[k]))
  }

  /** Appending encodings in order: the first error among them, or all
      their bytes concatenated. */
  function Emit(encs: seq<Result<seq<byte>>>): Result<seq<byte>>
    decreases |encs|
  {
    if encs == [] then Ok([])
    else
      match Emit(encs[..|encs| - 1])
      case Err(e) => Err(e)
      case Ok(bytes) =>
        match encs[|encs| - 1]
        case Err(e) => Err(e)
        case Ok(more) => Ok(bytes + more)
  }

  /** Pass 2 over the records, in order; the first error stops it. */
  function Pass2Spec(labels: map<string, nat>, records: seq<Record>): Result<seq<byte>>
  {
    Emit(Encodings(labels, records))
  }

  /** The whole assembler: Pass 1, then Pass 2 over its records with its
      completed label table. */
  function AssembleSpec(lines: seq<string>): Result<Assembled> {
    match Pass1Spec(lines)
    case Err(e) => Err(e)
    case Ok(st) =>
      match Pass2Spec(st.labels, st.records)
      case Err(e) => Err(e)
      case Ok(bytecode) => Ok(Assembled(st.labels, bytecode))
  }

  /** Every record Pass 1 keeps has a first token, so Pass 2 can always
      read a mnemonic. */
  lemma {:induction false} RecordsHaveMnemonics(lines: seq<string>)
    requires Pass1Spec(lines).Ok?
    ensures WellFormed(Pass1Spec(lines).value.records)
  {
    var ls := Classified(lines);
    var recs := Pass1Spec(lines).value.records;
    ScanRecordsAreInstructions(ls);
    forall k | 0 <= k < |recs|
      ensures Tokens(recs[k].text) != []
    {
      var j := recs[k].lineNo - 1;
      ClassifiedAt(lines, j);
      assert ls[j] == Instr(recs[k].text);
      ClassifiedInstruction(lines[j]);
    }
  }

  /** Once the scan has failed on a prefix, it fails with the same error on
      every longer prefix. */
  lemma {:induction false} ScanErrorPersists(ls: seq<Line>, i: nat)
    requires i <= |ls| && Scan(ls[..i]).Err?
    ensures Scan(ls) == Scan(ls[..i])
    decreases |ls| - i
  {
    if i < |ls| {
      assert ls[..i + 1][..i] == ls[..i];
      ScanErrorPersists(ls, i + 1);
    } else {
      assert ls[..i] == ls;
    }
  }

  /** Emitting one more encoding appends its bytes, or stops at its error. */
  lemma {:induction false} EmitOneMore(encs: seq<Result<seq<byte>>>, k: nat)
    requires k < |encs|
    ensures Emit(encs[..k + 1]) == match Emit(encs[..k])
      case Err(e) => Err(e)
      case Ok(bytes) => (match encs[k] case Err(e) => Err(e) case Ok(more) => Ok(bytes + more))
  {
    assert encs[..k + 1][..k] == encs[..k];
  }

  /** Once emission has failed on a prefix of the encodings, it fails with
      the same error on all of them. */
  lemma {:induction false} EmitErrorPersists(encs: seq<Result<seq<byte>>>, k: nat)
    requires k <= |encs| && Emit(encs[..k]).Err?
    ensures Emit(encs) == Emit(encs[..k])
    decreases |encs| - k
  {
    if k < |encs| {
      assert encs[..k + 1][..k] == encs[..k];
      EmitErrorPersists(encs, k + 1);
    } else {
      assert encs[..k] == encs;
    }
  }

  /** One iteration of Pass 1's loop: cut the comment and strip the line;
      bind a label to the current address, refusing a name already bound,
      or keep an instruction and advance the address by its size. */
  method ScanSourceLine(labels: map<string, nat>, instructions: seq<Record>, currentAddr: nat, raw: string, lineNo: nat)
    returns (res: Result<Pass1State>)
    ensures res == ScanLine(Pass1State(labels, instructions, currentAddr), Classify(raw), lineNo)
  {
    var line := Strip(BeforeFirst(raw, ';'));
    if line == [] {
      assert Classify(raw) == Blank;
      return Ok(Pass1State(labels, instructions, currentAddr));
    }
    if line[|line| - 1] == ':' {
      var name := Strip(line[..|line| - 1]);
      assert Classify(raw) == LabelDecl(name);
      if name in labels {
        return Err(DuplicateLabel(name, lineNo));
      }
      return Ok(Pass1State(labels[name := currentAddr], instructions, currentAddr));
    }
    assert Classify(raw) == Instr(line);
    var parts := Tokens(line);
    var addr := currentAddr + 1;
    if |parts| > 1 {
      addr := addr + 4;
    }
    assert addr == currentAddr + InstrSize(line);
    res := Ok(Pass1State(labels, instructions + [Record(lineNo, line)], addr));
  }

  /** Pass 1 as asm.py runs it: one loop over the lines updating the label
      table, the instruction list and the running address, returning at the
      first duplicate label. */
  method Pass1(lines: seq<string>) returns (res: Result<Pass1State>)
    ensures res == Pass1Spec(lines)
  {
    ghost var ls := Classified(lines);
    var labels: map<string, nat> := map[];
    var instructions: seq<Record> := [];
    var currentAddr: nat := 0;
    for i := 0 to |lines|
      invariant Scan(ls[..i]) == Ok(Pass1State(labels, instructions, currentAddr))
    {
      ScanOneMore(ls, i);
      ClassifiedAt(lines, i);
      var next := ScanSourceLine(labels, instructions, currentAddr, lines[i], i + 1);
      if next.Err? {
        ScanErrorPersists(ls, i + 1);
        return next;
      }
      labels, instructions, currentAddr := next.value.labels, next.value.records, next.value.addr;
    }
    assert ls[..|lines|] == ls;
    res := Ok(Pass1State(labels, instructions, currentAddr));
  }

  /** One iteration of Pass 2's loop: append the record's opcode and, when
      it has a second token, its packed operand to the bytecode; or stop
      with the error the record raises. */
  method EmitRecord(labels: map<string, nat>, r: Record, bytecode: seq<byte>) returns (res: Result<seq<byte>>)
    requires Tokens(r.text) != []
    ensures res == match EncodeRecord(labels, r) case Err(e) => Err(e) case Ok(more) => Ok(bytecode + more)
  {
    var parts := Tokens(r.text);
    var mnemonic := Upper(parts[0]);
    assert mnemonic == Mnemonic(r.text);
    if mnemonic !in OPCODES {
      return Err(UnknownInstruction(mnemonic, r.lineNo));
    }
    var op := OPCODES[mnemonic];
    var out := bytecode + [op];
    if |parts| > 1 {
      var operand := EncodeOperand(labels, StripTrailingCommas(parts[1]), r.lineNo);
      assert ArgumentBytes(labels, r.text, r.lineNo) == operand;
      if operand.Err? {
        return Err(operand.error);
      }
      assert EncodeRecord(labels, r) == Ok([op] + operand.value);
      assert out + operand.value == bytecode + ([op] + operand.value);
      out := out + operand.value;
    } else {
      assert ArgumentBytes(labels, r.text, r.lineNo) == Ok([]);
      assert EncodeRecord(labels, r) == Ok([op] + []);
      assert out == bytecode + ([op] + []);
    }
    res := Ok(out);
  }

  /** Pass 2 as asm.py runs it: one loop over the records appending to the
      bytecode, returning at the first unknown mnemonic, unparsable operand
      or operand that does not fit in 32 bits. */
  method Pass2(labels: map<string, nat>, instructions: seq<Record>) returns (res: Result<seq<byte>>)
    requires WellFormed(instructions)
    ensures res == Pass2Spec(labels, instructions)
  {
    ghost var encs := Encodings(labels, instructions);
    var bytecode: seq<byte> := [];
    for k := 0 to |instructions|
      invariant Emit(encs[..k]) == Ok(bytecode)
    {
      EmitOneMore(encs, k);
      assert encs[k] == EncodeRecord(labels, instructions[k]);
      var next := EmitRecord(labels, instructions[k], bytecode);
      if next.Err? {
        EmitErrorPersists(encs, k + 1);
        return next;
      }
      bytecode := next.value;
    }
    assert encs[..|instructions|] == encs;
    res := Ok(bytecode);
  }

  /** `assemble`: Pass 1, then Pass 2; the bytecode is returned (written)
      only when both passes succeed. */
  method Assemble(lines: seq<string>) returns (res: Result<Assembled>)
    ensures res == AssembleSpec(lines)
  {
    var p1 := Pass1(lines);
    if p1.Err? {
      return Err(p1.error);
    }
    RecordsHaveMnemonics(lines);
    var p2 := Pass2(p1.value.labels, p1.value.records);
    if p2.Err? {
      return Err(p2.error);
    }
    res := Ok(Assembled(p1.value.labels, p2.value));
  }
}
