/** What asm.py promises about its two passes, proved of the model in PyAsm:
    duplicate labels are the only Pass 1 failure, the records are the
    instruction lines in order, Pass 2 stops at the first bad record, and
    every label is bound to the output offset of the instruction after it. */
module PyAsmProperties {
  import opened Words
  import opened Wrappers
  import opened Strings
  import opened PyText
  import opened PyAsm

  ghost predicate Declared(ls: seq<Line>, name: string) {
    exists i :: 0 <= i < |ls| && ls[i] == LabelDecl(name)
  }

  ghost predicate DeclaredTwice(ls: seq<Line>) {
    exists i, j :: 0 <= i < j < |ls| && ls[i].LabelDecl? && ls[j] == ls[i]
  }

  /** After a successful scan the label table holds exactly the declared names. */
  lemma {:induction false} ScanLabelsAreDeclared(ls: seq<Line>)
    requires Scan(ls).Ok?
    ensures forall n :: n in Scan(ls).value.labels <==> Declared(ls, n)
    decreases |ls|
  {
    if ls != [] {
      var init := ls[..|ls| - 1];
      ScanLabelsAreDeclared(init);
      forall n ensures Declared(ls, n) <==> Declared(init, n) || ls[|ls| - 1] == LabelDecl(n) {
        if Declared(ls, n) {
          var i :| 0 <= i < |ls| && ls[i] == LabelDecl(n);
          if i < |init| {
            assert init[i] == ls[i];
          }
        }
        if Declared(init, n) {
          var i :| 0 <= i < |init| && init[i] == LabelDecl(n);
          assert ls[i] == init[i];
        }
      }
    }
  }

  /** The scan fails exactly when a label name is declared twice, and then
      with a duplicate-label error. */
  lemma {:induction false} ScanFailsIffDeclaredTwice(ls: seq<Line>)
    ensures Scan(ls).Err? <==> DeclaredTwice(ls)
    ensures Scan(ls).Err? ==> Scan(ls).error.DuplicateLabel?
    decreases |ls|
  {
    if ls != [] {
      var init := ls[..|ls| - 1];
      ScanFailsIffDeclaredTwice(init);
      DeclaredTwiceStep(ls);
      if Scan(init).Ok? {
        ScanLabelsAreDeclared(init);
      }
    }
  }

  /** A list declares a name twice when all but its last line do, or when
      the last line declares a name already declared. */
  lemma {:induction false} DeclaredTwiceStep(ls: seq<Line>)
    requires ls != []
    ensures var init, last := ls[..|ls| - 1], ls[|ls| - 1];
      DeclaredTwice(ls) <==> DeclaredTwice(init) || (last.LabelDecl? && Declared(init, last.name))
  {
    var m := |ls|;
    var init := ls[..m - 1];
    if DeclaredTwice(init) {
      var i, j :| 0 <= i < j < |init| && init[i].LabelDecl? && init[j] == init[i];
      assert ls[i] == init[i] && ls[j] == init[j];
    }
    if ls[m - 1].LabelDecl? && Declared(init, ls[m - 1].name) {
      var i :| 0 <= i < |init| && init[i] == LabelDecl(ls[m - 1].name);
      assert ls[i] == init[i];
    }
    if DeclaredTwice(ls) {
      var i, j :| 0 <= i < j < m && ls[i].LabelDecl? && ls[j] == ls[i];
      assert init[i] == ls[i];
      if j < m - 1 {
        assert init[j] == ls[j];
      }
    }
  }

  /** A successful scan's address is the total size of its records. */
  lemma {:induction false} ScanAddrIsTotalSize(ls: seq<Line>)
    requires Scan(ls).Ok?
    ensures Scan(ls).value.addr == TotalSize(Scan(ls).value.records)
    decreases |ls|
  {
    if ls != [] {
      ScanStep(ls);
      ScanAddrIsTotalSize(ls[..|ls| - 1]);
      var recs := Scan(ls).value.records;
      if ls[|ls| - 1].Instr? {
        assert recs[..|recs| - 1] == Scan(ls[..|ls| - 1]).value.records;
      }
    }
  }

  /** The records are kept in source order. */
  lemma {:induction false} ScanOrdersRecords(ls: seq<Line>)
    requires Scan(ls).Ok?
    ensures var recs := Scan(ls).value.records;
      forall k, l :: 0 <= k < l < |recs| ==> recs[k].lineNo < recs[l].lineNo
    decreases |ls|
  {
    if ls != [] {
      ScanStep(ls);
      ScanOrdersRecords(ls[..|ls| - 1]);
      ScanRecordsAreInstructions(ls[..|ls| - 1]);
    }
  }

  /** Every instruction line has a record. */
  lemma {:induction false} ScanKeepsEveryInstruction(ls: seq<Line>)
    requires Scan(ls).Ok?
    ensures var recs := Scan(ls).value.records;
      forall i :: 0 <= i < |ls| && ls[i].Instr? ==> exists k :: 0 <= k < |recs| && recs[k].lineNo == i + 1
    decreases |ls|
  {
    if ls != [] {
      var m := |ls|;
      var init := ls[..m - 1];
      ScanStep(ls);
      ScanKeepsEveryInstruction(init);
      var before := Scan(init).value.records;
      var recs := Scan(ls).value.records;
      forall i | 0 <= i < m && ls[i].Instr?
        ensures exists k :: 0 <= k < |recs| && recs[k].lineNo == i + 1
      {
        if i < m - 1 {
          assert init[i] == ls[i];
          var k :| 0 <= k < |before| && before[k].lineNo == i + 1;
          assert recs[k] == before[k];
        } else {
          assert recs[|recs| - 1].lineNo == m;
        }
      }
    }
  }

  /** The scan of the first i lines is a stage of the full scan: its records
      are a prefix of the final records, the records after them come from
      later lines, its labels keep their addresses, and a label declared on
      line i is bound to the address reached after the first i lines. */
  lemma {:induction false} ScanPrefix(ls: seq<Line>, i: nat)
    requires Scan(ls).Ok? && i <= |ls|
    ensures Scan(ls[..i]).Ok?
    ensures var st, pre := Scan(ls).value, Scan(ls[..i]).value;
      && pre.records <= st.records
      && (forall k :: |pre.records| <= k < |st.records| ==> st.records[k].lineNo > i)
      && (forall n :: n in pre.labels ==> n in st.labels && st.labels[n] == pre.labels[n])
      && (i < |ls| && ls[i].LabelDecl? ==> ls[i].name in st.labels && st.labels[ls[i].name] == pre.addr)
    decreases |ls|
  {
    if i < |ls| {
      var init := ls[..|ls| - 1];
      assert init[..i] == ls[..i];
      if i < |ls| - 1 {
        ScanPrefix(init, i);
      } else {
        assert init == ls[..i];
      }
    } else {
      assert ls[..i] == ls;
    }
  }

  /** A successful emission of a prefix of the encodings is a prefix of the
      whole output, and the next encoding follows it directly. */
  lemma {:induction false} EmitPrefix(encs: seq<Result<seq<byte>>>, k: nat)
    requires Emit(encs).Ok? && k <= |encs|
    ensures Emit(encs[..k]).Ok? && Emit(encs[..k]).value <= Emit(encs).value
    ensures k < |encs| ==> encs[k].Ok? && Emit(encs[..k + 1]) == Ok(Emit(encs[..k]).value + encs[k].value)
    decreases |encs|
  {
    var n := |encs|;
    if k == n {
      assert encs[..k] == encs;
    } else {
      var init := encs[..n - 1];
      assert init[..k] == encs[..k];
      if k < n - 1 {
        EmitPrefix(init, k);
        EmitPrefix(init, k + 1);
        assert init[..k + 1] == encs[..k + 1];
      } else {
        assert init == encs[..k];
        assert encs[..k + 1] == encs;
      }
    }
  }

  /** Emission succeeds exactly when every encoding does, and otherwise
      stops at the error of the first encoding that fails. */
  lemma {:induction false} EmitFirstError(encs: seq<Result<seq<byte>>>)
    ensures Emit(encs).Ok? <==> forall k :: 0 <= k < |encs| ==> encs[k].Ok?
    ensures forall k :: 0 <= k < |encs| && encs[k].Err? && (forall j :: 0 <= j < k ==> encs[j].Ok?) ==>
      Emit(encs) == Err(encs[k].error)
    decreases |encs|
  {
    if encs != [] {
      var n := |encs|;
      var init := encs[..n - 1];
      EmitFirstError(init);
      assert forall k :: 0 <= k < n - 1 ==> init[k] == encs[k];
    }
  }

  /** The encodings of a prefix of the records are a prefix of the encodings. */
  lemma {:induction false} EncodingsPrefix(labels: map<string, nat>, records: seq<Record>, k: nat)
    requires k <= |records|
    ensures Encodings(labels, records[..k]) == Encodings(labels, records)[..k]
  {
  }

  /** Pass 2's output is exactly as long as Pass 1 counted. */
  lemma {:induction false} Pass2Length(labels: map<string, nat>, records: seq<Record>)
    requires Pass2Spec(labels, records).Ok?
    ensures |Pass2Spec(labels, records).value| == TotalSize(records)
    decreases |records|
  {
    if records != [] {
      var n := |records|;
      EncodingsPrefix(labels, records, n - 1);
      Pass2Length(labels, records[..n - 1]);
    }
  }

  /** The output for a prefix of the records is the prefix of the output
      whose length Pass 1 counted for them, and the byte after it is the
      opcode of the next record. */
  lemma {:induction false} Pass2Prefix(labels: map<string, nat>, records: seq<Record>, k: nat)
    requires Pass2Spec(labels, records).Ok? && k <= |records|
    ensures Pass2Spec(labels, records[..k]).Ok?
    ensures var bytes := Pass2Spec(labels, records).value;
      && TotalSize(records[..k]) <= |bytes|
      && Pass2Spec(labels, records[..k]).value == bytes[..TotalSize(records[..k])]
      && (k < |records| ==>
            TotalSize(records[..k]) < |bytes| && Mnemonic(records[k].text) in OPCODES &&
            bytes[TotalSize(records[..k])] == OPCODES[Mnemonic(records[k].text)])
  {
    var encs := Encodings(labels, records);
    EncodingsPrefix(labels, records, k);
    EmitPrefix(encs, k);
    Pass2Length(labels, records[..k]);
    if k < |records| {
      var pre, bytes := Emit(encs[..k]).value, Emit(encs).value;
      EmitNext(encs, k);
      var more := EncodeRecord(labels, records[k]);
      assert encs[k] == more;
      assert pre + more.value <= bytes;
      assert bytes[|pre|] == more.value[0];
    }
  }

  /** The encoding after a prefix follows that prefix's output. */
  lemma {:induction false} EmitNext(encs: seq<Result<seq<byte>>>, k: nat)
    requires Emit(encs).Ok? && k < |encs|
    ensures encs[k].Ok? && Emit(encs[..k]).Ok? && Emit(encs[..k]).value + encs[k].value <= Emit(encs).value
  {
    EmitPrefix(encs, k);
    EmitPrefix(encs, k + 1);
  }

  lemma {:induction false} ClassifiedPrefix(lines: seq<string>, i: nat)
    requires i <= |lines|
    ensures Classified(lines[..i]) == Classified(lines)[..i]
  {
    forall j | 0 <= j < i
      ensures Classified(lines[..i])[j] == Classified(lines)[j]
    {
      ClassifiedAt(lines[..i], j);
      ClassifiedAt(lines, j);
    }
  }

  /** Pass 1 fails exactly when two lines declare the same label name, and
      then with a duplicate-label error; nothing is written. */
  lemma {:induction false} Pass1FailsIffDuplicateLabel(lines: seq<string>)
    ensures Pass1Spec(lines).Err? <==>
      exists i, j :: 0 <= i < j < |lines| && Classify(lines[i]).LabelDecl? && Classify(lines[j]) == Classify(lines[i])
    ensures Pass1Spec(lines).Err? ==> Pass1Spec(lines).error.DuplicateLabel? && AssembleSpec(lines).Err?
  {
    var ls := Classified(lines);
    ScanFailsIffDeclaredTwice(ls);
    if DeclaredTwice(ls) {
      var i, j :| 0 <= i < j < |ls| && ls[i].LabelDecl? && ls[j] == ls[i];
      ClassifiedAt(lines, i);
      ClassifiedAt(lines, j);
    }
    if exists i, j :: 0 <= i < j < |lines| && Classify(lines[i]).LabelDecl? && Classify(lines[j]) == Classify(lines[i]) {
      var i, j :| 0 <= i < j < |lines| && Classify(lines[i]).LabelDecl? && Classify(lines[j]) == Classify(lines[i]);
      ClassifiedAt(lines, i);
      ClassifiedAt(lines, j);
    }
  }

  /** Record r holds the instruction on its source line: its number and
      the stripped text of that line. */
  predicate IsInstructionLine(lines: seq<string>, r: Record) {
    1 <= r.lineNo <= |lines| && Classify(lines[r.lineNo - 1]) == Instr(r.text)
  }

  /** The records of a successful Pass 1 are instruction lines, each with
      its line number and its stripped text. */
  lemma {:induction false} RecordsAreInstructionLines(lines: seq<string>)
    requires Pass1Spec(lines).Ok?
    ensures var recs := Pass1Spec(lines).value.records;
      forall k :: 0 <= k < |recs| ==> IsInstructionLine(lines, recs[k])
  {
    var ls := Classified(lines);
    ScanRecordsAreInstructions(ls);
    RecordsOnLines(lines, Scan(ls).value.records);
  }

  /** Records that name instructions of the classified list name the
      instructions on those source lines. */
  lemma {:induction false} RecordsOnLines(lines: seq<string>, recs: seq<Record>)
    requires forall k :: 0 <= k < |recs| ==>
      1 <= recs[k].lineNo <= |Classified(lines)| && Classified(lines)[recs[k].lineNo - 1] == Instr(recs[k].text)
    ensures forall k :: 0 <= k < |recs| ==> IsInstructionLine(lines, recs[k])
  {
    forall k | 0 <= k < |recs|
      ensures IsInstructionLine(lines, recs[k])
    {
      RecordLine(lines, recs[k]);
    }
  }

  /** The records of a successful Pass 1 are kept in source order. */
  lemma {:induction false} RecordsInSourceOrder(lines: seq<string>)
    requires Pass1Spec(lines).Ok?
    ensures var recs := Pass1Spec(lines).value.records;
      forall k, l :: 0 <= k < l < |recs| ==> recs[k].lineNo < recs[l].lineNo
  {
    ScanOrdersRecords(Classified(lines));
  }

  /** A record that names an instruction of the classified list names the
      instruction on that source line. */
  lemma {:induction false} RecordLine(lines: seq<string>, r: Record)
    requires 1 <= r.lineNo <= |Classified(lines)| && Classified(lines)[r.lineNo - 1] == Instr(r.text)
    ensures IsInstructionLine(lines, r)
  {
    ClassifiedAt(lines, r.lineNo - 1);
  }

  /** Record k of a successful scan is the instruction on its line. */
  lemma {:induction false} ScanRecordAt(ls: seq<Line>, k: nat)
    requires Scan(ls).Ok? && k < |Scan(ls).value.records|
    ensures var r := Scan(ls).value.records[k];
      1 <= r.lineNo <= |ls| && ls[r.lineNo - 1] == Instr(r.text)
  {
    ScanRecordsAreInstructions(ls);
  }

  /** The record Pass 1 keeps for the instruction on line i + 1. */
  lemma {:induction false} InstructionLineRecord(lines: seq<string>, i: nat) returns (k: nat)
    requires Pass1Spec(lines).Ok? && i < |lines| && Classify(lines[i]).Instr?
    ensures k < |Pass1Spec(lines).value.records|
    ensures Pass1Spec(lines).value.records[k] == Record(i + 1, Classify(lines[i]).text)
  {
    var ls := Classified(lines);
    var recs := Scan(ls).value.records;
    ScanKeepsEveryInstruction(ls);
    ClassifiedAt(lines, i);
    k :| 0 <= k < |recs| && recs[k].lineNo == i + 1;
    ScanRecordAt(ls, k);
  }

  /** Every instruction line has a record after a successful Pass 1. */
  lemma {:induction false} EveryInstructionLineIsKept(lines: seq<string>)
    requires Pass1Spec(lines).Ok?
    ensures var recs := Pass1Spec(lines).value.records;
      forall i :: 0 <= i < |lines| && Classify(lines[i]).Instr? ==>
        exists k :: 0 <= k < |recs| && recs[k].lineNo == i + 1
  {
    var ls := Classified(lines);
    ScanKeepsEveryInstruction(ls);
    forall i | 0 <= i < |lines| && Classify(lines[i]).Instr?
      ensures exists k :: 0 <= k < |Pass1Spec(lines).value.records| && Pass1Spec(lines).value.records[k].lineNo == i + 1
    {
      ClassifiedAt(lines, i);
    }
  }

  /** The central promise of the two passes: every label is bound to the
      offset in the output of the first instruction after its declaration.
      The address equals the size of the instructions before the label,
      the output up to it is exactly their encoding, the byte there is the
      next instruction's opcode, and a label after the last instruction is
      bound to the length of the output. */
  lemma {:induction false} LabelAddressIsNextInstruction(lines: seq<string>, i: nat)
    requires AssembleSpec(lines).Ok?
    requires i < |lines| && Classify(lines[i]).LabelDecl?
    ensures Pass1Spec(lines).Ok? && Pass1Spec(lines[..i]).Ok?
    ensures var out, name := AssembleSpec(lines).value, Classify(lines[i]).name;
      var recs, before := Pass1Spec(lines).value.records, Pass1Spec(lines[..i]).value.records;
      && before <= recs
      && name in out.labels
      && out.labels[name] == TotalSize(before) <= |out.bytecode|
      && Pass2Spec(out.labels, before) == Ok(out.bytecode[..out.labels[name]])
      && (|before| < |recs| ==>
            recs[|before|].lineNo > i + 1 && out.labels[name] < |out.bytecode| &&
            Mnemonic(recs[|before|].text) in OPCODES &&
            out.bytecode[out.labels[name]] == OPCODES[Mnemonic(recs[|before|].text)])
      && (|before| == |recs| ==> out.labels[name] == |out.bytecode|)
  {
    LabelBoundToPrefixSize(lines, i);
    var st := Pass1Spec(lines).value;
    var k := |Pass1Spec(lines[..i]).value.records|;
    assert st.records[..k] == Pass1Spec(lines[..i]).value.records;
    Pass2Prefix(st.labels, st.records, k);
    Pass2Length(st.labels, st.records);
    if k == |st.records| {
      assert st.records[..k] == st.records;
    }
  }

  /** Pass 1 binds a label to the size of the records of the lines before
      it, which are the first records of the whole pass; the record after
      them comes from a later line. */
  lemma {:induction false} LabelBoundToPrefixSize(lines: seq<string>, i: nat)
    requires Pass1Spec(lines).Ok?
    requires i < |lines| && Classify(lines[i]).LabelDecl?
    ensures Pass1Spec(lines[..i]).Ok?
    ensures var st, name := Pass1Spec(lines).value, Classify(lines[i]).name;
      var before := Pass1Spec(lines[..i]).value.records;
      && before <= st.records
      && name in st.labels
      && st.labels[name] == TotalSize(before)
      && (|before| < |st.records| ==> st.records[|before|].lineNo > i + 1)
  {
    var ls := Classified(lines);
    ClassifiedPrefix(lines, i);
    ClassifiedAt(lines, i);
    ScanPrefix(ls, i);
    ScanPrefix(ls, i + 1);
    ScanAddrIsTotalSize(ls[..i]);
    assert ls[..i + 1][..i] == ls[..i];
  }

  /** Pass 1's final address is the length of the output. */
  lemma {:induction false} FinalAddressIsOutputLength(lines: seq<string>)
    requires AssembleSpec(lines).Ok?
    ensures Pass1Spec(lines).Ok? && |AssembleSpec(lines).value.bytecode| == Pass1Spec(lines).value.addr
  {
    ScanAddrIsTotalSize(Classified(lines));
    Pass2Length(Pass1Spec(lines).value.labels, Pass1Spec(lines).value.records);
  }

  /** A mnemonic missing from the table makes the whole assembly fail,
      whatever its operand, so nothing is written. */
  lemma {:induction false} UnknownMnemonicFails(lines: seq<string>, i: nat)
    requires i < |lines| && Classify(lines[i]).Instr?
    requires Mnemonic(Classify(lines[i]).text) !in OPCODES
    ensures AssembleSpec(lines).Err?
  {
    if Pass1Spec(lines).Ok? {
      var st := Pass1Spec(lines).value;
      var k := InstructionLineRecord(lines, i);
      var encs := Encodings(st.labels, st.records);
      assert encs[k] == EncodeRecord(st.labels, st.records[k]);
      EmitFirstError(encs);
    }
  }

  /** An operand token that is neither a label of the finished table nor
      an integer, or whose value does not fit in 32 signed bits, makes the
      whole assembly fail, so nothing is written. */
  lemma {:induction false} InvalidOperandFails(lines: seq<string>, i: nat)
    requires Pass1Spec(lines).Ok?
    requires i < |lines| && Classify(lines[i]).Instr? && |Tokens(Classify(lines[i]).text)| > 1
    requires var v := OperandValue(Pass1Spec(lines).value.labels, StripTrailingCommas(Tokens(Classify(lines[i]).text)[1]));
      v.None? || !IsInt32(v.value)
    ensures AssembleSpec(lines).Err?
  {
    var st := Pass1Spec(lines).value;
    var k := InstructionLineRecord(lines, i);
    var encs := Encodings(st.labels, st.records);
    assert encs[k] == EncodeRecord(st.labels, st.records[k]);
    assert encs[k].Err?;
    EmitFirstError(encs);
  }

  /** A mnemonic written in ASCII letters selects the table entry whose
      name it spells in any mix of cases. */
  lemma {:induction false} MnemonicIgnoresCase(text: string, name: string)
    requires Tokens(text) != [] && forall i :: 0 <= i < |Tokens(text)[0]| ==> IsAsciiLetter(Tokens(text)[0][i])
    requires name in OPCODES
    ensures Mnemonic(text) == name <==> SameUpToCase(Tokens(text)[0], name)
  {
    UpperIgnoresCase(Tokens(text)[0], name);
  }

  /** A line is blank exactly when its text before any ';' is all
      whitespace; a label's name and an instruction's text carry no
      surrounding whitespace, and an instruction does not end in ':'. */
  lemma {:induction false} ClassifyCases(raw: string)
    ensures Classify(raw).Blank? <==> AllSpace(BeforeFirst(raw, ';'))
    ensures Classify(raw).LabelDecl? ==> var n := Classify(raw).name;
      n == [] || (NotSpace(n[0]) && NotSpace(n[|n| - 1]))
    ensures Classify(raw).Instr? ==> var t := Classify(raw).text;
      t != [] && t[|t| - 1] != ':' && NotSpace(t[0]) && NotSpace(t[|t| - 1])
  {
    var line := Strip(BeforeFirst(raw, ';'));
    StripTrims(BeforeFirst(raw, ';'));
    if line != [] && line[|line| - 1] == ':' {
      StripTrims(line[..|line| - 1]);
    }
  }

  /** An operand spelled as `str(n)` denotes n, unless a label has that
      very name, whose address then wins. */
  lemma {:induction false} OperandOfDecimal(labels: map<string, nat>, n: int)
    ensures Decimal(n) !in labels ==> OperandValue(labels, Decimal(n)) == Some(n)
    ensures Decimal(n) in labels ==> OperandValue(labels, Decimal(n)) == Some(labels[Decimal(n)])
  {
    ParseDecimal(n);
  }
}
