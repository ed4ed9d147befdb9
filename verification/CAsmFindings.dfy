/** Two inputs on which the line rules of asm.c, as written, go wrong, and
    what the corrected rules make of them. */
module CAsmFindings {
  import opened Words
  import opened Wrappers
  import opened Strings
  import opened CText
  import opened CAsm

  /** A line ending in a newline, with no comment and no CR or LF before
      it, has all of its text before the newline as its text. */
  lemma {:induction false} LineTextPlain(text: string)
    requires text != [] && forall i :: 0 <= i < |text| ==> text[i] != ';' && !IsCrLf(text[i])
    ensures LineText(text + "\n") == text
  {
    var raw := text + "\n";
    BeforeFirstIs(raw, ';', |raw|);
    assert raw[..|raw|] == raw;
    SpanLenIs(IsCrLf, raw, 0);
    BreakLenIs(IsCrLf, raw, |text|);
    assert raw[0..] == raw && raw[..|text|] == text;
  }

  /** A comment cuts the line at its ';'. */
  lemma {:induction false} LineTextComment(text: string, comment: string)
    requires text != [] && forall i :: 0 <= i < |text| ==> text[i] != ';' && !IsCrLf(text[i])
    ensures LineText(text + ";" + comment) == text
  {
    var raw := text + ";" + comment;
    BeforeFirstIs(raw, ';', |text|);
    assert raw[..|text|] == text;
    SpanLenIs(IsCrLf, text, 0);
    BreakLenIs(IsCrLf, text, |text|);
    assert text[0..] == text && text[..|text|] == text;
  }

  /** LookupOpcode finds entry k when no entry before it has its name. */
  lemma {:induction false} LookupOpcodeAt(table: seq<Opcode>, k: nat)
    requires k < |table| && forall j :: 0 <= j < k ==> table[j].name != table[k].name
    ensures LookupOpcode(table, table[k].name) == Some(table[k].opcode)
  {
    if k > 0 {
      assert forall j :: 0 <= j < k - 1 ==> table[1..][j] == table[j + 1];
      LookupOpcodeAt(table[1..], k - 1);
    }
  }

  const MISPLACED: seq<string> := [" HALT\n", "x:\n", "JMP x\n"]

  /** The tokens of the two instruction texts of MISPLACED. (The lemmas
      below take their inputs as parameters equal to the literals, so that
      the verifier does not unfold the functions on the literals eagerly.) */
  lemma {:induction false} HaltTokens(t: string)
    requires t == " HALT"
    ensures MnemonicToken(t) == Some(Split("HALT", [])) && ArgToken(t).None?
    ensures Size(t, AsWritten) == 5 && Size(t, Corrected) == 1
  {
    assert t[0] == ' ';
    SpanLenIs(IsBlank, t, 1);
    BreakLenIs(IsBlank, t[1..], 4);
    assert t[1..][..4] == "HALT" && t[1] == 'H';
  }

  lemma {:induction false} JmpTokens(t: string)
    requires t == "JMP x"
    ensures MnemonicToken(t) == Some(Split("JMP", "x")) && ArgToken(t) == Some(Split("x", []))
    ensures Size(t, AsWritten) == 5 && Size(t, Corrected) == 5
  {
    assert t[3] == ' ';
    SpanLenIs(IsBlank, t, 0);
    BreakLenIs(IsBlank, t, 3);
    assert t[0..] == t && t[..3] == "JMP" && t[4..] == "x";
    var x := t[4..];
    SpanLenIs(IsArgDelim, x, 0);
    BreakLenIs(IsArgDelim, x, 1);
    assert x[0..] == x && x[..1] == x;
  }

  lemma {:induction false} HaltLine(raw: string, v: Variant)
    requires raw == " HALT\n"
    ensures ClassifyC(raw, v) == Instr(" HALT")
  {
    var text := " HALT";
    assert raw == text + "\n";
    LineTextPlain(text);
    HaltTokens(text);
    assert text[4] == 'T';
  }

  lemma {:induction false} LabelLine(raw: string, v: Variant)
    requires raw == "x:\n"
    ensures ClassifyC(raw, v) == LabelAt("x")
  {
    var text := "x:";
    assert raw == text + "\n";
    LineTextPlain(text);
    assert text[1] == ':' && text[..1] == "x";
  }

  lemma {:induction false} JmpLine(raw: string, v: Variant)
    requires raw == "JMP x\n"
    ensures ClassifyC(raw, v) == Instr("JMP x")
  {
    var text := "JMP x";
    assert raw == text + "\n";
    LineTextPlain(text);
    JmpTokens(text);
    assert text[4] == 'x';
    InstrLine(raw, text, v);
  }

  /** A line whose text is a mnemonic and does not end in ':' is an
      instruction under both rules. */
  lemma {:induction false} InstrLine(raw: string, text: string, v: Variant)
    requires LineText(raw) == text && text != [] && text[|text| - 1] != ':'
    requires MnemonicToken(text).Some?
    ensures ClassifyC(raw, v) == Instr(text)
  {
  }

  lemma {:induction false} MisplacedLines(lines: seq<string>, v: Variant)
    requires lines == MISPLACED
    ensures var ls := ClassifiedC(lines, v);
      |ls| == 3 && ls[0] == Instr(" HALT") && ls[1] == LabelAt("x") && ls[2] == Instr("JMP x")
  {
    HaltLine(lines[0], v);
    LabelLine(lines[1], v);
    JmpLine(lines[2], v);
  }

  /** Pass 1 over an instruction, a label and an instruction. */
  lemma {:induction false} ScanThree(ls: seq<CLine>, v: Variant, first: string, name: string, second: string)
    requires |ls| == 3 && ls[0] == Instr(first) && ls[1] == LabelAt(name) && ls[2] == Instr(second)
    ensures var at := Size(first, v);
      ScanC(ls, v) == CPass1([Label(name, at)], [Instruction(1, first), Instruction(3, second)], at + Size(second, v))
  {
    var at := Size(first, v);
    assert ls[..0] == [];
    ScanCOneMore(ls, 0, v);
    assert ScanC(ls[..1], v) == CPass1([], [Instruction(1, first)], at);
    ScanCOneMore(ls, 1, v);
    ScanCOneMore(ls, 2, v);
    assert ls[..3] == ls;
  }

  lemma {:induction false} MisplacedPass1(lines: seq<string>, v: Variant)
    requires lines == MISPLACED
    ensures var p := Pass1C(lines, v);
      && p.labels == [Label("x", if v == AsWritten then 5 else 1)]
      && |p.instrs| == 2 && p.instrs[0] == Instruction(1, " HALT") && p.instrs[1] == Instruction(3, "JMP x")
  {
    MisplacedLines(lines, v);
    var ls := ClassifiedC(lines, v);
    HaltTokens(ls[0].text);
    ScanThree(ls, v, ls[0].text, ls[1].name, ls[2].text);
  }

  lemma {:induction false} SmallOperand(n: byte)
    ensures [0xFF] + ([0x20] + WriteBE32(Wrap32(n))) == [0xFF, 0x20, 0, 0, 0, n]
  {
    assert IsInt32(n);
    assert WriteBE32(n) == [0, 0, 0, n];
  }

  /** The code of the table entry k, whose name no earlier entry has. */
  lemma {:induction false} CodeAt(name: string, k: nat)
    requires k < |OPCODES| && OPCODES[k].name == name
    requires forall j :: 0 <= j < k ==> |OPCODES[j].name| != |name| || OPCODES[j].name[0] != name[0]
    ensures LookupOpcode(OPCODES, name) == Some(OPCODES[k].opcode)
  {
    LookupOpcodeAt(OPCODES, k);
  }

  lemma {:induction false} HaltCode(name: string)
    requires name == "HALT"
    ensures LookupOpcode(OPCODES, name) == Some(0xFF)
  {
    CodeAt(name, 3);
  }

  lemma {:induction false} JmpCode(name: string)
    requires name == "JMP"
    ensures LookupOpcode(OPCODES, name) == Some(0x20)
  {
    CodeAt(name, 9);
  }

  lemma {:induction false} HaltEncoding(labels: seq<Label>, halt: Instruction)
    requires halt.text == " HALT"
    ensures EncodeC(labels, halt) == Encoded([0xFF])
  {
    HaltTokens(halt.text);
    HaltCode(MnemonicToken(halt.text).value.token);
  }

  lemma {:induction false} JmpEncoding(addr: uint32, jmp: Instruction)
    requires jmp.text == "JMP x"
    ensures EncodeC([Label("x", addr)], jmp) == Encoded([0x20] + WriteBE32(Wrap32(addr)))
  {
    JmpTokens(jmp.text);
    JmpCode(MnemonicToken(jmp.text).value.token);
    assert FirstLabel([Label("x", addr)], ArgToken(jmp.text).value.token) == Some(addr);
  }

  /** Emission of two successful encodings. */
  lemma {:induction false} EmitTwo(encs: seq<Encoding>)
    requires |encs| == 2 && encs[0].Encoded? && encs[1].Encoded?
    ensures EmitC(encs) == Outcome(encs[0].bytes + encs[1].bytes, None)
  {
    assert encs[..0] == [] && encs[..2] == encs;
    EmitCOneMore(encs, 0);
    EmitCOneMore(encs, 1);
  }

  /** Pass 2 over two instructions that both encode. */
  lemma {:induction false} Pass2Two(labels: seq<Label>, instrs: seq<Instruction>, first: seq<byte>, second: seq<byte>)
    requires |instrs| == 2
    requires EncodeC(labels, instrs[0]) == Encoded(first) && EncodeC(labels, instrs[1]) == Encoded(second)
    ensures Pass2C(labels, instrs) == Outcome(first + second, None)
  {
    EmitTwo(EncodingsC(labels, instrs));
  }

  lemma {:induction false} MisplacedPass2(p: CPass1, at: byte)
    requires p.labels == [Label("x", at)]
    requires |p.instrs| == 2 && p.instrs[0] == Instruction(1, " HALT") && p.instrs[1] == Instruction(3, "JMP x")
    ensures Pass2C(p.labels, p.instrs) == Outcome([0xFF, 0x20, 0, 0, 0, at], None)
  {
    HaltEncoding(p.labels, p.instrs[0]);
    JmpEncoding(at, p.instrs[1]);
    Pass2Two(p.labels, p.instrs, [0xFF], [0x20] + WriteBE32(Wrap32(at)));
    SmallOperand(at);
  }

  /** An instruction line with leading blanks: as written, Pass 1 counts
      an operand for it because its text contains a space, so the label
      after it is 4 bytes too far: the jump to it lands on offset 5, the
      last byte of the jump's own operand, which holds 0x05, no opcode of
      the machine. The corrected rules bind x to offset 1. */
  lemma {:induction false} MisplacedLabel(lines: seq<string>)
    requires lines == MISPLACED
    ensures Pass1C(lines, AsWritten).labels == [Label("x", 5)]
    ensures AssembleC(lines, AsWritten) == Outcome([0xFF, 0x20, 0, 0, 0, 5], None)
    ensures Pass1C(lines, Corrected).labels == [Label("x", 1)]
    ensures AssembleC(lines, Corrected) == Outcome([0xFF, 0x20, 0, 0, 0, 1], None)
  {
    MisplacedPass1(lines, AsWritten);
    MisplacedPass1(lines, Corrected);
    MisplacedPass2(Pass1C(lines, AsWritten), 5);
    MisplacedPass2(Pass1C(lines, Corrected), 1);
  }

  /** In general: as written, Pass 1 counts 4 operand bytes for any
      instruction whose text holds a space, but Pass 2 writes them only
      when it finds an operand token. */
  lemma {:induction false} AsWrittenOvercounts(labels: seq<Label>, ins: Instruction)
    requires ' ' in ins.text && ArgToken(ins.text).None? && EncodeC(labels, ins).Encoded?
    ensures Size(ins.text, AsWritten) == |EncodeC(labels, ins).bytes| + 4
  {
  }

  const INDENTED: seq<string> := ["    ; note\n"]

  lemma {:induction false} BlankTokens(t: string)
    requires t == "    "
    ensures MnemonicToken(t).None?
  {
    assert forall i :: 0 <= i < |t| ==> IsBlank(t[i]);
  }

  lemma {:induction false} CommentLine(raw: string, v: Variant)
    requires raw == "    ; note\n"
    ensures ClassifyC(raw, v) == if v == AsWritten then Instr("    ") else Skip
  {
    var text, comment := "    ", " note\n";
    assert raw == text + ";" + comment;
    LineTextComment(text, comment);
    BlankTokens(text);
    assert text[3] == ' ';
  }

  /** An indented comment line: as written, its text is the blanks before
      the ';', which Pass 1 takes for an instruction; Pass 2 then finds no
      mnemonic token in it and hands NULL to `strcmp`. The corrected rules
      skip the line, and the program assembles to nothing. */
  lemma {:induction false} IndentedComment(lines: seq<string>)
    requires lines == INDENTED
    ensures Pass1C(lines, AsWritten).instrs == [Instruction(1, "    ")]
    ensures AssembleC(lines, AsWritten) == Outcome([], Some(NoMnemonic(1)))
    ensures Pass1C(lines, Corrected) == CPass1([], [], 0)
    ensures AssembleC(lines, Corrected) == Outcome([], None)
  {
    CommentLine(lines[0], AsWritten);
    CommentLine(lines[0], Corrected);
    BlankTokens("    ");
    var ls, cs := ClassifiedC(lines, AsWritten), ClassifiedC(lines, Corrected);
    assert ls[..0] == [] && cs[..0] == [];
    var instrs := Pass1C(lines, AsWritten).instrs;
    var encs := EncodingsC(Pass1C(lines, AsWritten).labels, instrs);
    assert encs == [Failed(NoMnemonic(1))];
    assert encs[..0] == [];
  }
}
