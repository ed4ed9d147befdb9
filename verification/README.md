# ByteCode VM: two assemblers and a stack machine, in Dafny

This project models the three core programs of a small bytecode tool chain
and proves properties of them:

- `asm.py`, a two-pass assembler. Pass 1 reads the source lines. It drops
  comments and blank lines, binds each label to the address of the next
  instruction, and records each instruction with its size. Pass 2 encodes
  every instruction as an opcode byte and an optional big-endian signed
  32-bit operand. The operand is a label's address or a decimal integer.
  Any error stops the assembler before the output is written.
- `asm.c`, the same assembler written in C, modelled as written. Its
  label and instruction tables are fixed arrays. Pass 1 sizes an
  instruction by whether its text contains a space. Pass 2 streams bytes
  to the output file and stops at an unknown mnemonic. It resolves an
  operand as the first label of that name, or else with `atoi`.
- `vm.cpp`, `class VM`, the stack machine that runs the bytecode. It has
  an operand stack, a call stack, 1024 words of memory, a program counter
  and a running flag. There are 16 opcodes, and every error halts the
  machine.

Modules:

- `Words`: 32-bit words, wrap-around and big-endian decoding. It also holds
  `Wrappers`, an `Option` type, and `Strings`, span and break lengths.
- `PyText`: the Python string operations the assembler uses. These are
  `strip`, `split`, `rstrip(',')`, `upper`, `int()` and `str()`.
- `PyAsm` and `PyAsmProperties`: the Python assembler.
  - Specification functions: `Scan`, `Pass1Spec`, `Emit`, `Pass2Spec` and
    `AssembleSpec`.
  - Loop methods `Pass1`, `Pass2` and `Assemble`, each proved equal to its
    specification function.
  - Lemmas for what the passes promise.
- `CText`: the C library routines the C assembler uses. These are `strtok`,
  `strchr` and glibc's `atoi`.
- `CAsm`, `CAsmProperties` and `CAsmFindings`: the C assembler. Its passes
  are methods over arrays, proved equal to specification functions. It
  also has a corrected variant of the line rules, and two worked
  counterexamples.
- `VmSpec`, `Vm` and `VmProperties`: the machine.
  - `VmSpec` is the machine state as a value and one `step()` as a
    function.
  - `Vm` is `class VM`. Each method is proved to change the fields exactly
    as the matching `VmSpec` function says.
  - `VmProperties` proves per-opcode behaviour and the laws of running.
- `Disassembly`: the bytecode read back the way `step()` reads it, an
  opcode byte and then four operand bytes exactly for the seven opcodes
  whose case calls `fetchInt32()`. The Python assembler sizes an
  instruction by its token count, not by its opcode. The output reads
  back as the source's instructions when each has an operand token
  exactly when its opcode takes one (`AssemblyDisassembles`), and not
  otherwise (`SurplusOperand`, `MissingOperand`).
- `Agreement`: how the three programs fit together.
  - The two operand writers agree with each other.
  - The machine's `fetchInt32` reads back what they write.
  - The opcode tables agree.

Where the tool chain's intended behaviour and its code differ, the model
follows the code:

- The C assembler does not check for duplicate labels. A name declared
  twice resolves to its first declaration (`DuplicateLabelResolvesToFirst`).
- The C assembler has no invalid-operand error. `atoi` reads a non-numeric
  token as 0 (`AtoiOfNonNumeric`).
- On an unknown mnemonic the C assembler has already written the earlier
  instructions' bytes to the output file. It does not leave the output
  unwritten (`UnknownInstructionKeepsEarlierBytes`).
- The Python assembler writes nothing unless both passes succeed, as
  intended.

## Model

| member | source | states |
|---|---|---|
| Words.Wrap32 | vm.cpp:83-105 | the `int32_t` result of a wrapping add, subtract or multiply: in range and congruent to the exact value modulo 2^32 |
| Words.ToUnsigned | vm.cpp:129-130 | `uint32_t addr = fetchInt32()`: in range and congruent to the signed value modulo 2^32 |
| Words.DecodeIsTwosComplement | vm.cpp:56-60 | the word four bytes spell is their unsigned value, less 2^32 exactly when the top bit of the first byte is set, which is exactly when the word is negative |
| Strings.SpanLenBounds | asm.c:91 | the leading run `strspn` measures holds only characters of the set, and the character after it is not in the set |
| Strings.BreakLenBounds | asm.c:91 | the run `strcspn` measures holds no character of the set, and the character after it is in the set |
| Strings.TailSpanLenBounds | asm.py:20 | the trailing run holds only characters of the set, and the character before it is not in the set |
| Strings.Utf8Len | asm.c:84-85 | the bytes a C buffer needs for a text: one to four per character, and one per character of ASCII text |
| PyText.StripTrims | asm.py:20 | `strip()` returns a slice of the text with only whitespace outside it; the slice starts and ends with a non-space unless empty, and is empty exactly when the text is all whitespace |
| PyText.Tokens | asm.py:32 | `split()` yields at least one token for text that starts with a non-space |
| PyText.TokensEmpty | asm.py:32 | `split()` yields no token exactly when the text is all whitespace |
| PyText.TokensAreWords | asm.py:32 | every token `split()` yields is non-empty and holds no whitespace |
| PyText.TokenCount | asm.py:32-34 | `split()` yields more than one token exactly when the stripped text contains whitespace |
| PyText.UpperIgnoresCase | asm.py:40 | a word of ASCII letters upper-cases to a name exactly when it spells that name up to the case of its letters |
| PyText.ParseIntShape | asm.py:57 | a token `int()` accepts is an optional sign, then digits with single underscores between them, ending in a digit; only a leading '-' makes it negative |
| PyText.ParseDecimal | asm.py:57 | `int(str(n)) == n` for every integer n |
| PyAsm.PackBE32 | asm.py:62 | `struct.pack('>i', v)` writes four bytes, the first with its top bit set exactly when v is negative |
| PyAsm.ClassifiedInstruction | asm.py:20-24 | the text of an instruction line has a first token and does not end in ':' |
| PyAsm.ArgumentBytes | asm.py:50-62 | a successful operand encoding is exactly as long as Pass 1 counted, less the opcode |
| PyAsm.EncodeOperand | asm.py:54-62 | four bytes, or an error exactly when the token is neither a label nor an integer (InvalidArgument for that token and line) or its value does not fit 32 signed bits (ArgumentOutOfRange for that value and line) |
| PyAsm.EncodeRecord | asm.py:39-62 | a mnemonic missing from the table is an UnknownInstruction error for that line; on success the first byte is the mnemonic's opcode and the length is what Pass 1 counted |
| PyAsm.RecordsHaveMnemonics | asm.py:30-40 | every record Pass 1 keeps has a first token |
| PyAsm.ScanErrorPersists | asm.py:26-28 | once Pass 1 fails on a prefix, it fails with that error on the whole input |
| PyAsm.EmitErrorPersists | asm.py:42-44 | once Pass 2 fails on a prefix of the records, it fails with that error on all of them |
| PyAsm.ScanSourceLine | asm.py:20-34 | one iteration of the Pass 1 loop moves the label table, records and address exactly as the per-line function ScanLine |
| PyAsm.Pass1 | asm.py:17-34 | the loop over the lines computes Pass1Spec: the label table, records and final address, or the first duplicate-label error |
| PyAsm.EmitRecord | asm.py:39-62 | one Pass 2 iteration appends the record's encoding to the bytecode, or returns its error |
| PyAsm.Pass2 | asm.py:37-62 | the loop over the records computes Pass2Spec: all encodings concatenated, or the first error |
| PyAsm.Assemble | asm.py:12-66 | Pass 1 then Pass 2 with the completed label table, equal to AssembleSpec |
| PyAsmProperties.ScanLabelsAreDeclared | asm.py:24-29 | after a successful Pass 1 the label table holds exactly the declared names |
| PyAsmProperties.ScanFailsIffDeclaredTwice | asm.py:24-29 | Pass 1 fails if and only if some label is declared twice, and then with a duplicate-label error |
| PyAsmProperties.Pass1FailsIffDuplicateLabel | asm.py:17-34 | the same over the source lines; such a failure fails the whole assembly |
| PyAsmProperties.ScanAddrIsTotalSize | asm.py:33-34 | Pass 1's address is the sum of the record sizes: 1, plus 4 when there is a second token |
| PyAsmProperties.ScanOrdersRecords | asm.py:31 | the records are in strictly increasing line order |
| PyAsmProperties.ScanKeepsEveryInstruction | asm.py:30-31 | every instruction line has a record |
| PyAsmProperties.EmitFirstError | asm.py:42-60 | Pass 2 succeeds if and only if every record encodes |
| PyAsmProperties.Pass2Length | asm.py:33-34 | a successful Pass 2 writes exactly as many bytes as Pass 1 counted |
| PyAsmProperties.Pass2Prefix | asm.py:38-62 | the encoding of the first k records is the prefix of the output that is as long as their size |
| PyAsmProperties.RecordsAreInstructionLines | asm.py:30-31 | each record holds the stripped text of an instruction line, numbered from 1 |
| PyAsmProperties.RecordsInSourceOrder | asm.py:19-31 | the records follow the source order |
| PyAsmProperties.InstructionLineRecord | asm.py:30-31 | the record of an instruction line is that line's number and text |
| PyAsmProperties.EveryInstructionLineIsKept | asm.py:30-31 | after a successful Pass 1 every instruction line has a record |
| PyAsmProperties.LabelAddressIsNextInstruction | asm.py:29 | a label is bound to the output offset of the first instruction after it: the output up to there is the earlier instructions' encoding, and the byte there is the next opcode; a label after the last instruction is bound to the output length |
| PyAsmProperties.LabelBoundToPrefixSize | asm.py:29-34 | Pass 1 binds a label to the size of the records before it, which are the first records of the whole pass |
| PyAsmProperties.FinalAddressIsOutputLength | asm.py:33-62 | Pass 1's final address is the length of the output |
| PyAsmProperties.UnknownMnemonicFails | asm.py:42-44 | a line with a mnemonic missing from the table makes the whole assembly fail |
| PyAsmProperties.InvalidOperandFails | asm.py:50-62 | an operand token that is neither a label of the finished table nor an integer, or whose value does not fit 32 signed bits, makes the whole assembly fail |
| PyAsmProperties.MnemonicIgnoresCase | asm.py:40-47 | a mnemonic of ASCII letters selects the table entry whose name it spells in any mix of cases |
| PyAsmProperties.ClassifyCases | asm.py:20-31 | a line is blank exactly when its text before any ';' is all whitespace; label names and instruction texts carry no surrounding whitespace; an instruction does not end in ':' |
| PyAsmProperties.OperandOfDecimal | asm.py:54-57 | an operand spelled `str(n)` denotes n unless a label has that name, whose address then wins |
| Disassembly.WholeAppend | vm.cpp:76-79 | bytes that split into whole instructions, followed by more bytes, read as their instructions followed by those of the rest |
| Disassembly.RecordDisassembles | asm.py:38-62 | the bytes of a record whose operand token is present exactly when its opcode takes one read back as one instruction with that opcode and operand value |
| Disassembly.Pass2Disassembles | asm.py:37-62 | Pass 2's output for such records reads back as them, one instruction each, in order |
| Disassembly.AssemblyDisassembles | asm.py:12-62 | when every record's operand token is present exactly when its opcode takes an operand, the machine reads the output as the source's instructions in order, with their opcodes and operand values |
| Disassembly.SurplusOperand | asm.py:50-62 | an operand on an opcode that takes none is still written, and the machine reads its bytes as instructions of their own |
| Disassembly.HaltFive | asm.py:50-62 | `HALT 5` is written as `FF 00 00 00 05`, which reads as five instructions |
| Disassembly.MissingOperand | asm.py:47-50 | an opcode that takes an operand written without one is a single byte, which does not read back as a whole instruction |
| CText.Strtok | asm.c:91 | a token `strtok` returns is non-empty, and it and the rest fit in the text |
| CText.StrtokFinds | asm.c:91-92 | `strtok` returns NULL exactly when the text holds delimiters only; otherwise its token is the run of non-delimiters at the first non-delimiter, and the rest resumes after the delimiter that ends it |
| CText.Atoi | asm.c:142 | `atoi` reads the leading integer, exact when it fits 32 bits |
| CText.AtoiOfNonNumeric | asm.c:142 | a token with no digit after its optional sign (`x`, `-x`, `+`, `-`) reads as 0 |
| CAsm.LookupOpcodeFinds | asm.c:33-42 | the table search finds a code exactly when an entry has that exact name, and the code is that entry's |
| CAsm.FirstLabelFinds | asm.c:44-52 | the label search finds an address exactly when a label has the name, and then the first such label's |
| CAsm.FindOpcode | asm.c:33-42 | `find_opcode`'s loop computes the table search; 0 and not found on a miss |
| CAsm.FindLabel | asm.c:44-52 | `find_label`'s loop over the first count labels computes the label search; `*out` is untouched on a miss |
| CAsm.WriteBE32 | asm.c:54-59 | `write_be32` writes four bytes |
| CAsm.ClassifyC | asm.c:88-106 | under the corrected rules every instruction line has a mnemonic token |
| CAsm.OperandBytes | asm.c:137-144 | four operand bytes exactly when there is an operand token |
| CAsm.EncodeC | asm.c:124-144 | a success is as long as the corrected sizing counts; NoMnemonic exactly when the text has no mnemonic token |
| CAsm.EncodedStartsWithOpcode | asm.c:128-135 | an encoding starts with the code of its exact mnemonic |
| CAsm.ToUnsignedAdd | asm.c:105-106 | the `uint32_t pc` wraps the same however its increment is split |
| CAsm.ScanCPrefix | asm.c:94-103 | Pass 1's label and instruction arrays only grow |
| CAsm.ScanSourceLineC | asm.c:85-107 | one `fgets` iteration updates the arrays, counts and `pc` exactly as the per-line function ScanLineC |
| CAsm.Pass1 | asm.c:84-108 | the `fgets` loop fills the arrays as Pass1C says |
| CAsm.EmitCFaultPersists | asm.c:129-133 | after a failing instruction nothing more is written |
| CAsm.EncodeInstruction | asm.c:121-144 | Pass 2's loop body computes EncodeC |
| CAsm.WriteOperand | asm.c:137-144 | the operand part of the loop body computes OperandBytes |
| CAsm.Pass2 | asm.c:120-145 | Pass 2's loop writes the bytes of the instructions before the first failure, and reports that failure |
| CAsm.Assemble | asm.c:76-145 | `main` from lines to bytes equals AssembleC as written |
| CAsmProperties.SizeSum | asm.c:105-106 | each instruction counts 1 to 5 bytes |
| CAsmProperties.SizeNeverUndercounts | asm.c:105-106 | the as-written sizing never counts fewer bytes than the corrected one, since an operand token can follow the mnemonic only across a space |
| CAsmProperties.ScanCLabelsDeclared | asm.c:94-99 | every label entry is the name of some declaration line |
| CAsmProperties.DuplicateLabelResolvesToFirst | asm.c:44-52 | a name declared twice resolves to its first declaration |
| CAsmProperties.ScanCPcIsSizeSum | asm.c:105-106 | `pc` is the wrapped sum of the instruction sizes |
| CAsmProperties.EmitCFirstFault | asm.c:129-133 | Pass 2 stops at the first failing instruction with all earlier bytes written |
| CAsmProperties.Pass2CLength | asm.c:135-144 | with no fault the output is as long as the corrected sizing counts |
| CAsmProperties.UnknownInstructionKeepsEarlierBytes | asm.c:129-135 | an unknown mnemonic leaves the earlier instructions' bytes in the output |
| CAsmProperties.Pass2CPrefix | asm.c:120-145 | the output of the first n instructions is the prefix as long as their corrected size |
| CAsmProperties.CorrectedLabelEntry | asm.c:94-99 | under the corrected rules a label is bound to the size of the instructions before it |
| CAsmProperties.CorrectedLabelAddressIsNextInstruction | asm.c:98 | under the corrected rules a label is bound to the output offset of the next instruction's opcode |
| CAsmProperties.CorrectedHasNoNullMnemonic | asm.c:124-128 | the corrected rules never hand a NULL mnemonic to `strcmp` |
| CAsmFindings.AsWrittenOvercounts | asm.c:106 | as written, text with a space but no operand token is counted 4 bytes longer than Pass 2 writes |
| CAsmFindings.MisplacedLabel | asm.c:106 | concrete input where, as written, a label lands 4 bytes past its instruction |
| CAsmFindings.IndentedComment | asm.c:88-92 | concrete input where, as written, an indented comment line becomes an instruction with no mnemonic |
| VmSpec.ExecArith | vm.cpp:83-126 | ADD, SUB, MUL, DIV and CMP keep the machine invariant |
| VmProperties.ExecuteFrame | vm.cpp:78-205 | executing one opcode never sets `running`; only STORE writes memory; only CALL and RET touch the call stack |
| VmSpec.Step | vm.cpp:65-206 | a step keeps `pc` and every return address within the code, and memory full |
| VmSpec.Run | vm.cpp:208-210 | a run keeps the same invariant |
| Vm.VM.constructor | vm.cpp:37-39 | the code is the given bytecode and the state is the reset state |
| Vm.VM.Reset | vm.cpp:41-47 | empty stacks, `pc` 0, running, all memory zero |
| Vm.VM.EnsureStack | vm.cpp:17-24 | true if and only if n values are on the stack; otherwise halts and changes nothing else |
| Vm.VM.EnsureAddr | vm.cpp:27-34 | true if and only if the address is inside the code; otherwise halts |
| Vm.VM.FetchInt32 | vm.cpp:50-63 | the big-endian word at `pc` and `pc + 4`, or 0 and a halt when fewer than four bytes remain |
| Vm.VM.Arithmetic | vm.cpp:83-126 | the binary-operator cases move the fields as ExecArith |
| Vm.VM.Branch | vm.cpp:134-152 | JZ and JNZ move the fields as ExecBranch |
| Vm.VM.Store | vm.cpp:154-165 | STORE moves the fields as ExecStore |
| Vm.VM.Load | vm.cpp:167-176 | LOAD moves the fields as ExecLoad |
| Vm.VM.Call | vm.cpp:178-185 | CALL moves the fields as ExecCall |
| Vm.VM.Ret | vm.cpp:187-196 | RET moves the fields as ExecRet |
| Vm.VM.Execute | vm.cpp:78-205 | the opcode switch moves the fields as VmSpec.Execute |
| Vm.VM.Step | vm.cpp:65-206 | `step()` moves the fields as VmSpec.Step |
| Vm.VM.Run | vm.cpp:208-210 | `run()` with at most fuel steps moves the fields as VmSpec.Run |
| Vm.VM.GetResult | vm.cpp:212-214 | the top of the stack, or 0 when it is empty |
| VmProperties.StepPastEnd | vm.cpp:66-70 | with `pc` past the code a step only clears `running` |
| VmProperties.StepHalts | vm.cpp:198-204 | HALT and an unknown opcode consume the byte and halt |
| VmProperties.StepFrame | vm.cpp:65-206 | a step never sets `running`; only STORE writes memory; only CALL and RET touch the call stack |
| VmProperties.StackUnderflow | vm.cpp:17-24 | POP, DUP and the binary operators on too short a stack halt and change nothing else |
| VmProperties.ArithmeticStep | vm.cpp:83-126 | a binary operator pops b then a and pushes its result |
| VmProperties.DivisionByZero | vm.cpp:107-118 | DIV by zero pops both operands, pushes nothing and halts |
| VmProperties.CompareStep | vm.cpp:120-126 | CMP pushes 1 when a < b and 0 otherwise |
| VmProperties.TruncatedOperand | vm.cpp:50-55 | for each of the seven opcodes with an operand, an operand cut short by the end of the code reads as 0 and halts the machine; PUSH pushes 0, JMP and CALL go to 0, LOAD pushes cell 0, STORE writes cell 0 and JZ and JNZ branch on the top as for address 0, each unless its stack check fails first |
| VmProperties.PushStep | vm.cpp:79 | PUSH pushes its operand and moves past it |
| VmProperties.PopStep | vm.cpp:80 | POP with a value on the stack removes it and changes nothing else |
| VmProperties.DupStep | vm.cpp:81 | DUP with a value on the stack pushes a copy of the top |
| VmProperties.JumpStep | vm.cpp:128-132 | JMP goes to its operand, read as unsigned, exactly when it is inside the code |
| VmProperties.BranchStep | vm.cpp:134-152 | JZ and JNZ pop the top and jump when it is zero or non-zero and the target is inside the code |
| VmProperties.StoreStep | vm.cpp:154-165 | STORE pops the top into the addressed cell |
| VmProperties.StoreOutOfBounds | vm.cpp:155-161 | STORE with an empty stack or a cell index of 1024 or more halts after its operand with stack and memory unchanged |
| VmProperties.EmptyStackBranch | vm.cpp:134-152 | JZ and JNZ on an empty stack halt after their operand |
| VmProperties.LoadStep | vm.cpp:167-176 | LOAD pushes the addressed cell |
| VmProperties.LoadOutOfBounds | vm.cpp:168-173 | LOAD of a cell index of 1024 or more halts after its operand and pushes nothing |
| VmProperties.StoreThenLoad | vm.cpp:154-176 | a STORE then a LOAD of the same cell puts the value back and leaves it in memory |
| VmProperties.CallStep | vm.cpp:178-185 | CALL pushes the address after its operand and jumps |
| VmProperties.CallOutside | vm.cpp:178-185 | CALL to an address outside the code halts after its operand and pushes no return address |
| VmProperties.RetStep | vm.cpp:187-196 | RET pops the return address into `pc` |
| VmProperties.RetUnderflow | vm.cpp:187-192 | RET with an empty call stack halts and changes nothing else |
| VmProperties.ProbeRuns | vm.cpp:78-204 | on a probe state that lets every case succeed, a step keeps running exactly when the opcode has a case other than HALT |
| VmProperties.CallThenReturn | vm.cpp:178-196 | a CALL to a RET comes back to the instruction after the CALL with the call stack as it was |
| VmProperties.RunHalted | vm.cpp:208-210 | a halted machine stays as it is |
| VmProperties.RunAdds | vm.cpp:208-210 | running a + b steps is running a steps and then b more |
| VmProperties.MoreFuel | vm.cpp:208-210 | once a run halts, more fuel changes nothing |
| VmProperties.TruncDivRounding | vm.cpp:116 | DIV rounds toward zero: the remainder takes the dividend's sign and is smaller than the divisor |
| Agreement.PackIsWrite | asm.c:54-59 | Python's `struct.pack('>i', v)` and C's `write_be32(v)` write the same four bytes |
| Agreement.DecodePack | vm.cpp:56-60 | `fetchInt32` reads back the packed value |
| Agreement.FetchReadsWord | vm.cpp:50-63 | `fetchInt32` succeeds exactly when four bytes remain; it then moves `pc` past them and returns the word whose packing they are, and otherwise returns 0 with `pc` unchanged |
| Agreement.PackDecode | asm.py:62 | any four bytes are what packing their word gives |
| Agreement.DecodeWrite | vm.cpp:56-60 | `fetchInt32` reads back what `write_be32` wrote |
| Agreement.PyOperandReadBack | asm.py:54-62 | the machine reads back the operand value the Python assembler encoded |
| Agreement.COperandReadBack | asm.c:137-144 | the machine reads back the first label's address, or `atoi` of the token |
| Agreement.TablesAgree | asm.c:25-31 | the C table and the Python map give every exact name the same code |
| Agreement.TableOpcodesRun | vm.cpp:78-204 | the opcodes the assemblers emit are exactly those the machine has a case for, and on the probe a step keeps running exactly for those other than HALT |
| Agreement.KeysAreUpper | asm.py:5-10 | every mnemonic of the table is upper-case ASCII, so upper-casing leaves it unchanged |
| Agreement.LowerCaseMnemonic | asm.py:40 | Python upper-cases a mnemonic and C does not: any name that is a table entry only once upper-cased (`push`, `Jmp`) is unknown to the C lookup |
| Agreement.AtoiOfDecimal | asm.c:142 | `atoi` reads back the decimal spelling `int()` reads back, so a number means the same to both assemblers while it fits 32 bits |
| Agreement.JumpIntoOwnOperand | vm.cpp:128-132 | a JMP whose target is the last byte of its own operand, which is no opcode, halts the machine there on the next step |
| Agreement.PushThenHalt | vm.cpp:79 | `PUSH v; HALT` runs two steps and leaves v as the result |

## Left out

- Files and messages: opening, reading, rewinding and writing files, and every printed message, are left out. Both assemblers take the input as a sequence of lines. The C model returns what `fputc` would have written. `main` and its argument handling are left out of all three programs.
- `step()` prints the stack on every step. This trace output is left out.
- Vm.VM.Run: `run()` loops until `running` is false and may never stop. The model takes a fuel bound and stops after that many steps. A program that loops forever is not captured.
- Vm.VM.constructor: requires a program shorter than 2^32 - 4 bytes. This guarantees that `pc + 4` never wraps in `uint32_t`.
- Vm.VM: the machine's memory before `reset()` is not modelled, because the constructor always resets.
- Signed overflow of ADD, SUB and MUL, `INT_MIN / -1`, and the shift `code[pc] << 24` in `fetchInt32` when the byte's top bit is set (vm.cpp:57, before C++20) are undefined behaviour in C++. The model gives them their wrapped two's-complement values (`Wrap32`, `DecodeBE32`).
- CAsm.Pass1: requires FitsBuffers, the limits of the C assembler's fixed buffers:
  - each line fits one `fgets` buffer and holds no NUL;
  - at most 512 labels, with names of at most 63 bytes;
  - lengths are counted in bytes of the text's UTF-8 encoding (`Utf8Len`), since the model's text is a sequence of Unicode characters;
  - at most 4096 instructions.
  Overflowing these arrays is undefined behaviour in C and is not modelled.
- CAsm.Assemble: the same buffer limits apply.
- A line longer than the `fgets` buffer is read by C in pieces. This is not modelled.
- CText.Atoi: `atoi` is modelled as glibc computes it, `(int) strtol(s, NULL, 10)`. The value saturates at the 64-bit `long` range and the conversion to `int` keeps its low 32 bits. The contract states the value only when it fits 32 bits. The C standard leaves an overflowing `atoi` undefined.
- CAsm.FindOpcode: `find_opcode(NULL, …)` is undefined behaviour in C. The model does not call it on a missing mnemonic. Pass 2 stops there with the NoMnemonic fault instead.
- PyText.ParseInt: Python `int()` also accepts other Unicode digits. The model accepts ASCII decimal digits, an optional sign and single underscores between digits.
- PyText.Upper: raises the ASCII letters a to z and maps ı, ſ, ß and the ligatures ﬀ to ﬆ as Python does. Every other character is left unchanged, so é, ñ, ÿ and other non-ASCII lower-case letters are not upper-cased, unlike in Python.
- The Python assembler's `struct.error` for a value outside 32 bits is not a `ValueError`, so the script stops with an uncaught exception. The model reports it as the error ArgumentOutOfRange. In both cases no output is written.
- PyAsm.Pass2: requires its records to be well formed, that is, each to have a first token. Pass 1 guarantees this (RecordsHaveMnemonics), so Assemble never needs more than the source lines.

## Findings

| source | as written | input that shows it | evidently intended | confidence | as-written member | corrected member |
|---|---|---|---|---|---|---|
| asm.c:106 | Pass 1 counts 4 operand bytes for any instruction whose text contains a space. Pass 2 writes them only when `strtok` finds an operand token. | the lines `" HALT"`, `"x:"`, `"JMP x"`: label x is bound to 5, and in the output `FF 20 00 00 00 05` the jump lands on offset 5, the last byte of its own operand, which holds 0x05, an unknown opcode, so the machine halts there | size by the operand token Pass 2 will find, binding x to 1 | not executed | CAsmFindings.MisplacedLabel | CAsmProperties.CorrectedLabelAddressIsNextInstruction |
| asm.c:91-92 | A line of blanks before a `;` comment keeps its blanks as an instruction. Pass 2 then passes the NULL from `strtok` to `strcmp`. | the single line `"    ; note"`: Pass 1 keeps instruction `"    "`, and Pass 2 reaches `find_opcode(NULL)` | skip a line whose text has no token | not executed | CAsmFindings.IndentedComment | CAsmProperties.CorrectedHasNoNullMnemonic |
