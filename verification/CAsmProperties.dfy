/** What asm.c does with labels and output, proved of the model in CAsm:
    the first declaration of a name wins, a failing instruction leaves the
    bytes of the earlier ones in the file, and, under the corrected line
    rules, every label is the output offset of the instruction after it.
    The as-written rules miss that last promise; the lemmas at the end
    exhibit inputs that show it. */
module CAsmProperties {
  import opened Words
  import opened Wrappers
  import opened CText
  import opened CAsm

  /** The bytes Pass 1 counts for a list of instructions. */
  function SizeSum(instrs: seq<Instruction>, v: Variant): (n: nat)
    ensures |instrs| <= n <= 5 * |instrs|
  {
    if instrs == [] then 0 else SizeSum(instrs[..|instrs| - 1], v) + Size(instrs[|instrs| - 1].text, v)
  }

  /** The label a line declares is appended at the end of the labels of the
      lines before it, at the `pc` they reached. */
  lemma {:induction false} ScanCLabelEntry(ls: seq<CLine>, i: nat, v: Variant)
    requires i < |ls| && ls[i].LabelAt?
    ensures var pre := ScanC(ls[..i], v);
      |pre.labels| < |ScanC(ls, v).labels| && ScanC(ls, v).labels[|pre.labels|] == Label(ls[i].name, pre.pc)
  {
    ScanCOneMore(ls, i, v);
    ScanCPrefix(ls, i + 1, v);
  }

  /** Every label entry comes from a line declaring its name. */
  lemma {:induction false} ScanCLabelsDeclared(ls: seq<CLine>, v: Variant)
    ensures var labels := ScanC(ls, v).labels;
      forall k :: 0 <= k < |labels| ==> exists j :: 0 <= j < |ls| && ls[j] == LabelAt(labels[k].name)
    decreases |ls|
  {
    if ls != [] {
      var m := |ls|;
      var init := ls[..m - 1];
      ScanCStep(ls, v);
      ScanCLabelsDeclared(init, v);
      var before := ScanC(init, v).labels;
      var labels := ScanC(ls, v).labels;
      forall k | 0 <= k < |labels|
        ensures exists j :: 0 <= j < m && ls[j] == LabelAt(labels[k].name)
      {
        if k < |before| {
          assert labels[k] == before[k];
          var j :| 0 <= j < |init| && init[j] == LabelAt(before[k].name);
          assert ls[j] == init[j];
        } else {
          assert ls[m - 1] == LabelAt(labels[k].name);
        }
      }
    }
  }

  /** FirstLabel finds entry k when it is the first entry with its name. */
  lemma {:induction false} FirstLabelAt(labels: seq<Label>, k: nat)
    requires k < |labels| && forall j :: 0 <= j < k ==> labels[j].name != labels[k].name
    ensures FirstLabel(labels, labels[k].name) == Some(labels[k].addr)
  {
    if k > 0 {
      assert forall j :: 0 <= j < k - 1 ==> labels[1..][j] == labels[j + 1];
      FirstLabelAt(labels[1..], k - 1);
    }
  }

  /** There is no duplicate check: a name declared again is appended again,
      and `find_label` resolves it to the address of its first declaration. */
  lemma {:induction false} DuplicateLabelResolvesToFirst(lines: seq<string>, i: nat)
    requires i < |lines| && ClassifyC(lines[i], AsWritten).LabelAt?
    requires forall j :: 0 <= j < i ==> ClassifyC(lines[j], AsWritten) != ClassifyC(lines[i], AsWritten)
    ensures FirstLabel(Pass1C(lines, AsWritten).labels, ClassifyC(lines[i], AsWritten).name) ==
      Some(Pass1C(lines[..i], AsWritten).pc)
  {
    var ls := ClassifiedC(lines, AsWritten);
    assert ClassifiedC(lines[..i], AsWritten) == ls[..i];
    assert ls[i] == ClassifyC(lines[i], AsWritten);
    var name := ls[i].name;
    ScanCLabelEntry(ls, i, AsWritten);
    ScanCPrefix(ls, i, AsWritten);
    ScanCLabelsDeclared(ls[..i], AsWritten);
    var pre := ScanC(ls[..i], AsWritten).labels;
    var labels := ScanC(ls, AsWritten).labels;
    forall j | 0 <= j < |pre|
      ensures labels[j].name != name
    {
      assert labels[j] == pre[j];
      var l :| 0 <= l < i && ls[..i][l] == LabelAt(pre[j].name);
      assert ls[l] == ClassifyC(lines[l], AsWritten);
    }
    FirstLabelAt(labels, |pre|);
  }

  /** Without wrap-around, `pc` is the sum of the instruction sizes. */
  lemma {:induction false} ScanCPcIsSizeSum(ls: seq<CLine>, v: Variant)
    requires 5 * |ScanC(ls, v).instrs| < TWO_32
    ensures ScanC(ls, v).pc == SizeSum(ScanC(ls, v).instrs, v)
    decreases |ls|
  {
    if ls != [] {
      var init := ls[..|ls| - 1];
      var instrs := ScanC(ls, v).instrs;
      assert |ScanC(init, v).instrs| <= |instrs|;
      ScanCPcIsSizeSum(init, v);
      if ls[|ls| - 1].Instr? {
        assert instrs[..|instrs| - 1] == ScanC(init, v).instrs;
      }
    }
  }

  /** Emission is fault-free exactly when every encoding succeeds, and then
      writes one encoding after another. */
  lemma {:induction false} EmitCPrefix(encs: seq<Encoding>, k: nat)
    requires EmitC(encs).fault.None? && k <= |encs|
    ensures EmitC(encs[..k]).fault.None? && EmitC(encs[..k]).written <= EmitC(encs).written
    ensures k < |encs| ==> encs[k].Encoded? && EmitC(encs[..k + 1]).written == EmitC(encs[..k]).written + encs[k].bytes
    decreases |encs|
  {
    var n := |encs|;
    if k == n {
      assert encs[..k] == encs;
    } else {
      var init := encs[..n - 1];
      assert init[..k] == encs[..k];
      if k < n - 1 {
        EmitCPrefix(init, k);
        EmitCPrefix(init, k + 1);
        assert init[..k + 1] == encs[..k + 1];
      } else {
        assert init == encs[..k];
        assert encs[..k + 1] == encs;
      }
    }
  }

  /** Pass 2 stops at the first failing instruction, reporting its fault,
      and the file keeps every byte of the instructions before it. */
  lemma {:induction false} EmitCFirstFault(encs: seq<Encoding>, k: nat)
    requires k < |encs| && encs[k].Failed?
    requires forall j :: 0 <= j < k ==> encs[j].Encoded?
    ensures EmitC(encs[..k]).fault.None?
    ensures EmitC(encs) == Outcome(EmitC(encs[..k]).written, Some(encs[k].fault))
  {
    EmitCAllEncoded(encs[..k]);
    EmitCOneMore(encs, k);
    EmitCFaultPersists(encs, k + 1);
  }

  /** With no failing encoding nothing is reported. */
  lemma {:induction false} EmitCAllEncoded(encs: seq<Encoding>)
    requires forall j :: 0 <= j < |encs| ==> encs[j].Encoded?
    ensures EmitC(encs).fault.None?
    decreases |encs|
  {
    if encs != [] {
      EmitCAllEncoded(encs[..|encs| - 1]);
    }
  }

  lemma {:induction false} EncodingsCPrefix(labels: seq<Label>, instrs: seq<Instruction>, k: nat)
    requires k <= |instrs|
    ensures EncodingsC(labels, instrs[..k]) == EncodingsC(labels, instrs)[..k]
  {
  }

  /** A fault-free Pass 2 writes exactly the bytes the corrected sizing
      counts. */
  lemma {:induction false} Pass2CLength(labels: seq<Label>, instrs: seq<Instruction>)
    requires Pass2C(labels, instrs).fault.None?
    ensures |Pass2C(labels, instrs).written| == SizeSum(instrs, Corrected)
    decreases |instrs|
  {
    if instrs != [] {
      var n := |instrs|;
      var encs := EncodingsC(labels, instrs);
      EncodingsCPrefix(labels, instrs, n - 1);
      EmitCPrefix(encs, n - 1);
      Pass2CLength(labels, instrs[..n - 1]);
      assert encs[n - 1] == EncodeC(labels, instrs[n - 1]);
      assert encs[..n] == encs;
    }
  }

  /** At an unknown mnemonic asm.c returns with the bytes of all earlier
      instructions already written: one opcode byte at least for each. */
  lemma {:induction false} UnknownInstructionKeepsEarlierBytes(labels: seq<Label>, instrs: seq<Instruction>, k: nat)
    requires k < |instrs| && EncodeC(labels, instrs[k]).Failed?
    requires EncodeC(labels, instrs[k]).fault.UnknownInstruction?
    requires forall j :: 0 <= j < k ==> EncodeC(labels, instrs[j]).Encoded?
    ensures Pass2C(labels, instrs[..k]).fault.None?
    ensures Pass2C(labels, instrs) == Outcome(Pass2C(labels, instrs[..k]).written, Some(EncodeC(labels, instrs[k]).fault))
    ensures |Pass2C(labels, instrs[..k]).written| == SizeSum(instrs[..k], Corrected) >= k
  {
    var encs := EncodingsC(labels, instrs);
    EncodingsCPrefix(labels, instrs, k);
    EmitCFirstFault(encs, k);
    Pass2CLength(labels, instrs[..k]);
  }

  /** A fault-free Pass 2 writes the encodings of the first n instructions
      as the first SizeSum(instrs[..n]) bytes. */
  lemma {:induction false} Pass2CPrefix(labels: seq<Label>, instrs: seq<Instruction>, n: nat)
    requires n <= |instrs| && Pass2C(labels, instrs).fault.None?
    ensures var out, at := Pass2C(labels, instrs).written, SizeSum(instrs[..n], Corrected);
      at <= |out| && Pass2C(labels, instrs[..n]) == Outcome(out[..at], None)
  {
    EncodingsCPrefix(labels, instrs, n);
    EmitCPrefix(EncodingsC(labels, instrs), n);
    Pass2CLength(labels, instrs[..n]);
  }

  /** ... and the byte right after them is the opcode of instruction n. */
  lemma {:induction false} Pass2CNextOpcode(labels: seq<Label>, instrs: seq<Instruction>, n: nat)
    requires n < |instrs| && Pass2C(labels, instrs).fault.None?
    ensures var out, at := Pass2C(labels, instrs).written, SizeSum(instrs[..n], Corrected);
      at < |out| && EncodeC(labels, instrs[n]).Encoded? && out[at] == EncodeC(labels, instrs[n]).bytes[0]
  {
    var encs := EncodingsC(labels, instrs);
    var out := Pass2C(labels, instrs).written;
    Pass2CPrefix(labels, instrs, n);
    EncodingsCPrefix(labels, instrs, n);
    EmitCPrefix(encs, n);
    EncodingsCPrefix(labels, instrs, n + 1);
    EmitCPrefix(encs, n + 1);
    assert encs[n] == EncodeC(labels, instrs[n]);
    var before := EmitC(encs[..n]).written;
    var next := EmitC(encs[..n + 1]).written;
    assert |before| == SizeSum(instrs[..n], Corrected);
    assert |encs[n].bytes| >= 1;
    assert next == before + encs[n].bytes;
    assert next <= out;
    assert next[|before|] == encs[n].bytes[0];
  }

  /** Without a fault, Pass 2 writes exactly the bytes Pass 1 counted. */
  lemma {:induction false} Pass2CWhole(labels: seq<Label>, instrs: seq<Instruction>)
    requires Pass2C(labels, instrs).fault.None?
    ensures SizeSum(instrs[..|instrs|], Corrected) == |Pass2C(labels, instrs).written|
  {
    assert instrs[..|instrs|] == instrs;
    Pass2CLength(labels, instrs);
  }

  /** Pass 1 of the corrected rules binds the label of line i to the size
      of the instructions before it, which are a prefix of all of them. */
  lemma {:induction false} CorrectedLabelEntry(lines: seq<string>, i: nat)
    requires i < |lines| && ClassifyC(lines[i], Corrected).LabelAt?
    requires |Pass1C(lines, Corrected).instrs| <= MAX_LINES
    ensures var p, pre := Pass1C(lines, Corrected), Pass1C(lines[..i], Corrected);
      && |pre.labels| < |p.labels| && |pre.instrs| <= |p.instrs|
      && p.instrs[..|pre.instrs|] == pre.instrs
      && p.labels[|pre.labels|] == Label(ClassifyC(lines[i], Corrected).name, pre.pc)
      && pre.pc == SizeSum(pre.instrs, Corrected)
  {
    var ls := ClassifiedC(lines, Corrected);
    assert ClassifiedC(lines[..i], Corrected) == ls[..i];
    assert ls[i] == ClassifyC(lines[i], Corrected);
    ScanCLabelEntry(ls, i, Corrected);
    ScanCPrefix(ls, i, Corrected);
    ScanCPcIsSizeSum(ls[..i], Corrected);
  }

  /** Under the corrected rules every label is bound to the output offset
      of the first instruction after its declaration: its address is the
      size of the instructions before it, the output up to it is their
      encoding, and the byte there is the next instruction's opcode. */
  lemma {:induction false} CorrectedLabelAddressIsNextInstruction(lines: seq<string>, i: nat)
    requires i < |lines| && ClassifyC(lines[i], Corrected).LabelAt?
    requires |Pass1C(lines, Corrected).instrs| <= MAX_LINES
    requires AssembleC(lines, Corrected).fault.None?
    ensures var p, pre := Pass1C(lines, Corrected), Pass1C(lines[..i], Corrected);
      var out := AssembleC(lines, Corrected).written;
      && |pre.labels| < |p.labels| && pre.instrs <= p.instrs
      && p.labels[|pre.labels|] == Label(ClassifyC(lines[i], Corrected).name, pre.pc)
      && pre.pc <= |out|
      && Pass2C(p.labels, pre.instrs) == Outcome(out[..pre.pc], None)
      && (|pre.instrs| < |p.instrs| ==>
            pre.pc < |out| && EncodeC(p.labels, p.instrs[|pre.instrs|]).Encoded? &&
            out[pre.pc] == EncodeC(p.labels, p.instrs[|pre.instrs|]).bytes[0])
      && (|pre.instrs| == |p.instrs| ==> pre.pc == |out|)
  {
    CorrectedLabelEntry(lines, i);
    var p, pre := Pass1C(lines, Corrected), Pass1C(lines[..i], Corrected);
    Pass2CPrefix(p.labels, p.instrs, |pre.instrs|);
    if |pre.instrs| < |p.instrs| {
      Pass2CNextOpcode(p.labels, p.instrs, |pre.instrs|);
    } else {
      Pass2CWhole(p.labels, p.instrs);
    }
  }

  /** Under the corrected rules no instruction lacks a mnemonic token. */
  lemma {:induction false} CorrectedInstructionsHaveMnemonics(ls: seq<CLine>)
    requires forall j :: 0 <= j < |ls| && ls[j].Instr? ==> MnemonicToken(ls[j].text).Some?
    ensures forall k :: 0 <= k < |ScanC(ls, Corrected).instrs| ==>
      MnemonicToken(ScanC(ls, Corrected).instrs[k].text).Some?
    decreases |ls|
  {
    if ls != [] {
      var init := ls[..|ls| - 1];
      assert forall j :: 0 <= j < |init| ==> init[j] == ls[j];
      ScanCStep(ls, Corrected);
      CorrectedInstructionsHaveMnemonics(init);
    }
  }

  /** Pass 2 reports a missing mnemonic only for an instruction that has
      no mnemonic token. */
  lemma {:induction false} NullMnemonicNeedsBlankText(labels: seq<Label>, instrs: seq<Instruction>)
    requires forall k :: 0 <= k < |instrs| ==> MnemonicToken(instrs[k].text).Some?
    ensures Pass2C(labels, instrs).fault.Some? ==> !Pass2C(labels, instrs).fault.value.NoMnemonic?
  {
    var encs := EncodingsC(labels, instrs);
    if Pass2C(labels, instrs).fault.Some? {
      if forall j :: 0 <= j < |encs| ==> encs[j].Encoded? {
        EmitCAllEncoded(encs);
      } else {
        var k := FirstFailed(encs);
        EmitCFirstFault(encs, k);
        assert encs[k] == EncodeC(labels, instrs[k]);
      }
    }
  }

  /** So the corrected assembler never reaches asm.c's undefined `strcmp`
      on a NULL mnemonic. */
  lemma {:induction false} CorrectedHasNoNullMnemonic(lines: seq<string>)
    ensures AssembleC(lines, Corrected).fault.Some? ==> !AssembleC(lines, Corrected).fault.value.NoMnemonic?
  {
    var ls := ClassifiedC(lines, Corrected);
    forall j | 0 <= j < |ls| && ls[j].Instr?
      ensures MnemonicToken(ls[j].text).Some?
    {
      assert ls[j] == ClassifyC(lines[j], Corrected);
    }
    CorrectedInstructionsHaveMnemonics(ls);
    var p := ScanC(ls, Corrected);
    NullMnemonicNeedsBlankText(p.labels, p.instrs);
  }

  /** The index of the first failing encoding, when there is one. */
  lemma {:induction false} FirstFailed(encs: seq<Encoding>) returns (k: nat)
    requires exists j :: 0 <= j < |encs| && encs[j].Failed?
    ensures k < |encs| && encs[k].Failed? && forall j :: 0 <= j < k ==> encs[j].Encoded?
  {
    if encs[0].Failed? {
      k := 0;
    } else {
      var j :| 0 <= j < |encs| && encs[j].Failed?;
      assert encs[1..][j - 1] == encs[j];
      var k' := FirstFailed(encs[1..]);
      k := k' + 1;
      assert encs[k] == encs[1..][k'];
      assert forall i :: 1 <= i < k ==> encs[i] == encs[1..][i - 1];
    }
  }

  /** The as-written sizing never counts fewer bytes than the corrected
      one: an operand token can follow the mnemonic only across a space. */
  lemma {:induction false} SizeNeverUndercounts(text: string)
    ensures Size(text, Corrected) <= Size(text, AsWritten)
  {
    if ArgToken(text).Some? {
      var m := MnemonicToken(text).value;
      StrtokFinds(text, IsBlank);
      StrtokFinds(m.rest, IsArgDelim);
      SpaceAfterToken(text, m);
    }
  }

  /** A token with text after it was ended by a space. */
  lemma {:induction false} SpaceAfterToken(s: string, m: Split)
    requires m.rest != [] && exists start: nat :: TokenAt(s, IsBlank, start, m)
    ensures ' ' in s
  {
    var start: nat :| TokenAt(s, IsBlank, start, m);
    assert s[start + |m.token|] == ' ';
  }
}
