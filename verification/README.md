# RV64 simulator: verified model

A Dafny model of the core of an RV64 simulator written in C++: its error-correcting register format,
its assembler, its block-sparse memory, its program loader and the arithmetic of its ALU, with proofs of what
these parts promise together. `dafny verify dfyconfig.toml` checks everything.

## What is modelled

| Part | Modules |
|---|---|
| Bit sequences and their integer values | `Bits`, `Wrappers` |
| Protected registers: code, decoder, metadata, scrubbing | `Metadata`, `Ecc`, `EccTheorems`, `Scrubbing` |
| Integer ALU cases | `Alu`, `AluTheorems` |
| Encoding tables, encoders, immediates, decoder | `Instructions`, `CodeGenerator`, `Immediates`, `Decoder` |
| Parser: data sections, first pass, back-patching | `DataSection`, `FirstPass`, `SectionBounds`, `AssemblyParser`, `BackPatching` |
| Data layout, computed by parser and loader | `DataLayout`, `TokenLayout`, `ServedLabels`, `Loader`, `LoadedProgram` |
| From assembled code to fetched instructions | `LoadedCode` |
| From data tokens to the values read back | `DataValues` |
| Memory | `MainMemory` |
| Line-to-instruction map, bfloat16 rounding | `LineMap`, `Bfloat16` |

Code that changes things step by step is a method or a class (`Memory`, `Parser`) proved against a
specification function; what the source promises is proved about that function. Machine words are bit
sequences of fixed length, least significant bit first; `ToNat` and `ToInt` are their unsigned and two's
complement values, and `FromInt` wraps. `/` on integers is Euclidean in Dafny, so the truncating division of
C++ is written out (`Alu.TruncDiv`, `Alu.TruncRem`).

## Where the code falls short of what it says

Each of these is a lemma with the exact condition, or a concrete counterexample.

- **Single-error correction.** Data positions do not skip the powers of two, so a lone flip of Hamming check
  bit j is "repaired" by flipping data bit 2^j - 1 (`EccTheorems.CheckBitFlipMiscorrects`). Of the 39 single
  flips exactly those of the 32 data bits and of the overall parity bit are corrected
  (`EccTheorems.SingleFlipCorrectable`); the condition for all odd error patterns is in
  `EccTheorems.DecodingExact`.
- **DATA_ECC_MASK** has 35 ones although its comment says bits 0 to 38. Of all words that `kCheckError` repairs,
  exactly those with syndrome 0, 40, 48 or 56 reach neither the history nor the corrected flag
  (`Scrubbing.RepairRecordedExactly`), among them a codeword with bit 38 flipped
  (`Scrubbing.ParityRepairUnrecorded`) and one with bits 35, 37 and 38 flipped
  (`Scrubbing.TripleRepairUnrecorded`).
- **Data layout.** A labelled directive without values can make the parser's offsets differ from the loader's,
  in a file that is read without an error (`TokenLayout.EmptyDirectiveDisagrees`). They agree exactly when each
  datum, aligned for itself, also meets the greatest alignment of the labels waiting before it, a condition on
  the tokens alone (`TokenLayout.FileAgreesExactly`).
- **First pass.** A LABEL token spelled `data`, `section` or `bss` makes it loop forever
  (`FirstPass.SectionNamedLabelLoops`). `FirstPass.TerminatesExactly` says that only such tokens do; it also names
  OPCODE tokens, which the loop treats alike but the lexer never spells that way.
- **Memory.** In a memory smaller than the access width the bounds guard wraps around and a failing write can
  leave its first bytes behind (`MainMemory.PartialWrite`); rejected writes are harmless in all other cases
  (`MainMemory.RejectionHarmlessExactly`).
- **Packed 32-bit operations** do not mask the low lane, so a negative low result spoils the high lane unless
  that is -1 (`AluTheorems.Simd32Lanes`, with an operand pair in `AluTheorems.PackedSpill`).
- **Opcode 0011011** has no case in `ImmGenerator`: `addiw` and the W shifts by immediate read 0
  (`Decoder.ImmediateRecovered`, `Immediates.ShiftAmountOfI2`; `Decoder.AddiwReadsZero` at an immediate of 1).
- **bfloat16.** Patterns from 0xFFFF8000 on wrap around to zero, and a NaN can round to infinity or to zero
  (`Bfloat16.NarrowRoundsExactly`, `Bfloat16.NaNSurvivesExactly`, with three patterns in `Bfloat16.LostNaNs`).

## Model

| member | source | states |
|---|---|---|
| EccTheorems.HammingXor | src/ecc/ecc_utils.cpp:12-47 | the six parity bits are linear over xor, for data of any length |
| EccTheorems.HammingOneHot | src/ecc/ecc_utils.cpp:12-47 | the parity bits of a single data bit i spell i + 1 |
| EccTheorems.CodeLinear | src/ecc/ecc_utils.cpp:7-60 | compute_ecc is linear: the code of a xor is the xor of the codes |
| EccTheorems.CodeEven | src/ecc/ecc_utils.cpp:49-55 | every codeword has even weight |
| EccTheorems.CodeDistance | src/ecc/ecc_utils.cpp:7-60 | distinct codewords are at distance 2 exactly when their data differ in one bit i with i + 1 a power of two, otherwise at least 4 |
| EccTheorems.DecodingExact | src/ecc/ecc_utils.cpp:62-126 | for every data word and every error on the 39 code bits, checkError restores the codeword if and only if the error is none, one data bit, or odd with no data bit and a Hamming part of 0 or above 32 |
| EccTheorems.SingleFlipCorrectable | src/ecc/ecc_utils.cpp:62-126 | of the single flips exactly the data bits and the overall parity bit are corrected |
| EccTheorems.CheckBitFlipMiscorrects | src/ecc/ecc_utils.cpp:111-119 | a lone flip of check bit j comes back as the codeword of data with bit 2^j - 1 flipped |
| EccTheorems.CheckedFixedPoints | src/ecc/ecc_utils.cpp:101-126 | for every 64-bit word, checkError returns it unchanged if and only if its low 39 bits have even parity, otherwise a codeword with zeros above; hence it is idempotent |
| EccTheorems.EvenErrorsPass | src/ecc/ecc_utils.cpp:101-126 | no error of even weight on a codeword is ever altered |
| Ecc.ParityBits | src/ecc/ecc_utils.cpp:9-45 | the imperative fold computes the six parity bits |
| Ecc.ComputeEcc | src/ecc/ecc_utils.cpp:7-60 | compute_ecc returns the 39-bit codeword, zero above |
| Ecc.CheckError | src/ecc/ecc_utils.cpp:62-126 | checkError computes the decoding function that EccTheorems characterises |
| Ecc.AdaptiveCheckError | src/ecc/ecc_utils.cpp:127-176 | adaptive_check_error computes the metadata rules that Scrubbing characterises |
| Ecc.ParityOfCode | src/ecc/ecc_utils.cpp:93-97 | the parity mismatch of checkError is the parity of all 39 code bits |
| Metadata.GetMode | include/ecc/ecc_metadata.h:48-50 | get_mode is the value of bits 40 and 41 |
| Metadata.GetHist | include/ecc/ecc_metadata.h:51-53 | get_hist is the value of bits 42 and 43 |
| Metadata.GetFreq | include/ecc/ecc_metadata.h:54-56 | get_freq is the value of bits 44 to 53 |
| Metadata.GetSignificance | include/ecc/ecc_metadata.h:57-59 | get_significance is the value of bits 54 to 59 |
| Metadata.UpdateMetadataBit | include/ecc/ecc_metadata.h:61-65 | update_metadata writes each field's bits in its place and keeps every other bit |
| Metadata.GetAfterUpdate | include/ecc/ecc_metadata.h:48-65 | each getter returns what was last written, modulo its width |
| Scrubbing.CheckRound | src/vm/alu.cpp:96-105 | after at most one data flip, kCheckError restores the 39 code bits, counts the repair and the check with saturation, sets the mode, and its flag is true exactly if there was a flip |
| Scrubbing.UncheckedKept | src/ecc/ecc_utils.cpp:139-150 | in mode NONE a check keeps the word below bit 40 and from bit 60, its history and its significance, and reports nothing |
| Scrubbing.SetSigRound | src/vm/alu.cpp:106-117 | on any register kSetSig replaces only the significance, whether or not a flip is pending |
| Scrubbing.RepairRecordedExactly | src/ecc/ecc_utils.cpp:141-150 | for every word with checks on: it is changed below bit 39 if and only if its parity is odd, and then flag and history record this if and only if its syndrome is not 0, 40, 48 or 56 |
| Scrubbing.UnseenError | include/ecc/ecc_metadata.h:16-17 | every correctable odd error with such a syndrome is repaired and leaves flag and history as they were |
| Scrubbing.ParityRepairUnrecorded | include/ecc/ecc_metadata.h:16-17 | the flip of the overall parity bit is one |
| Scrubbing.TripleRepairUnrecorded | include/ecc/ecc_metadata.h:16-17 | the flips of bits 35, 37 and 38 together, with syndrome 40, are one |
| Scrubbing.RunRestores | src/ecc/ecc_utils.cpp:127-176 | over arbitrarily long runs of flips, checks and significance changes with at most one flip between checks: after each check the code bits are the original ones, history and frequency are the saturated counts of repairs and checks, significance is the last one set, and the mode is SECDED exactly when it is 63 |
| Scrubbing.ProtectedResult | src/vm/alu.cpp:51-64 | a protected add, sub, mul or div yields a codeword in mode SEC with history 0 and frequency 1, its 32-bit result, a flag that is set exactly if the exact result does not fit, and a significance that is at least that of each operand and equal to one |
| Scrubbing.TreeEvaluates | src/vm/alu.cpp:51-165 | for every expression tree, a flip of at most one data bit followed by a check on any edges leaves the value that plain 32-bit evaluation gives; every node is a codeword; the root's significance is that of some leaf and at least that of every leaf |
| AluTheorems.ProtectedArithmetic | src/vm/alu.cpp:51-165 | protected results are the 32-bit numbers congruent to the exact ones and the flag says whether those fit; division truncates, is -1 by zero, and overflows only for the least number by -1 |
| AluTheorems.InjectedFlip | src/vm/alu.cpp:72-95 | the flag of kInjectFlip is set exactly if the word changed, and then the drawn bit alone did |
| AluTheorems.FlagUnused | src/vm/alu.cpp:106-117 | kSetSig, the high products, packed operations and shifts never set the flag |
| AluTheorems.TruncatedDivision | src/vm/alu.cpp:275-322 | truncating quotient and remainder recompose the dividend, the remainder being smaller than the divisor and signed like the dividend |
| AluTheorems.ShiftsScale | src/vm/alu.cpp:509-532 | sll, srl and sra multiply modulo 2^64 and divide, rounding down, by the power of two named by the low six bits of the second operand |
| AluTheorems.HighProducts | src/vm/alu.cpp:389-412 | kMulh, kMulhsu and kMulhu are the high 64 bits of the exact signed, mixed and unsigned products |
| AluTheorems.MulhuFromMulh | src/vm/alu.cpp:166-178 | mulhu is mulh plus b if a is negative plus a if b is negative, modulo 2^64 |
| AluTheorems.Pack16Lanes | src/vm/alu.cpp:203-226 | masking and shifting keeps four 16-bit results apart, whatever their signs |
| AluTheorems.Simd16Lanes | src/vm/alu.cpp:203-322 | packed 16-bit add, sub, mul, div and rem are four independent wrapping lane operations |
| AluTheorems.Simd32Lanes | src/vm/alu.cpp:179-202 | packed 32-bit operations give the right low lane always and the right high lane exactly when the low result is non-negative or the high result is -1 |
| AluTheorems.Simd16Arithmetic | src/vm/alu.cpp:203-322 | each 16-bit lane is congruent to sum, difference or product; a division lane is congruent to a quotient whose remainder is smaller than the divisor and signed like the dividend, a remainder lane is that remainder, and a zero divisor gives 0 |
| AluTheorems.Simd32Arithmetic | src/vm/alu.cpp:179-202 | the same for the low 32-bit lane, and for the high lane if the low result is not negative; otherwise the high lane is -1 |
| AluTheorems.PackedSpill | src/vm/alu.cpp:179-190 | -1 + 0 in the low lane turns 0 + 0 in the high lane into -1 |
| Instructions.TablesListed | src/common/instructions.cpp:425-666 | every table entry fits its fields and is recognisable by opcode, funct3 and funct7 |
| Instructions.TablesInvert | src/common/instructions.cpp:425-666 | no two mnemonics share a format and its fixed fields |
| CodeGenerator.RShape | src/assembler/code_generator.cpp:46-62 | or-ing shifted fields gives the concatenation of the R fields |
| CodeGenerator.IShape | src/assembler/code_generator.cpp:64-78 | the same for the I shape, with the low 12 bits of the immediate |
| CodeGenerator.SShape | src/assembler/code_generator.cpp:109-124 | the same for the split store immediate |
| CodeGenerator.GenerateI2 | src/assembler/code_generator.cpp:80-93 | the same for shifts by immediate, with funct6 |
| CodeGenerator.GenerateB | src/assembler/code_generator.cpp:126-145 | the scrambled branch immediate |
| CodeGenerator.GenerateU | src/assembler/code_generator.cpp:147-156 | the upper immediate |
| CodeGenerator.GenerateJ | src/assembler/code_generator.cpp:158-170 | the scrambled jump immediate, from the mask constants |
| CodeGenerator.GenerateR4 | src/assembler/code_generator.cpp:260-276 | the fused multiply-add fields |
| CodeGenerator.Generate | src/assembler/code_generator.cpp:46-307 | for all 17 formats, in-range operands give the word the format prescribes |
| CodeGenerator.GenerateMachineCode | src/assembler/code_generator.cpp:309-354 | succeeds exactly when every mnemonic has a format, and then emits the words in order |
| Immediates.ImmediateOfI | src/vm/vm_base.cpp:102-173 | ImmGenerator returns every in-range I and FD-I immediate, and 0 for addiw |
| Immediates.ImmediateOfS | src/vm/vm_base.cpp:102-173 | ImmGenerator reassembles every in-range S and FD-S immediate |
| Immediates.ImmediateOfB | src/vm/vm_base.cpp:102-173 | ImmGenerator unscrambles every even in-range branch offset |
| Immediates.ImmediateOfJ | src/vm/vm_base.cpp:102-173 | ImmGenerator unscrambles every even in-range jump offset |
| Immediates.ImmediateOfU | src/vm/vm_base.cpp:102-173 | ImmGenerator returns every 20-bit upper immediate |
| Immediates.ShiftAmountOfI2 | src/vm/vm_base.cpp:102-173 | the low six bits are the shift amount although funct6 leaks in, unless the opcode has no case |
| Decoder.DecodeInverts | src/assembler/code_generator.cpp:46-307 | a decoder recovers mnemonic and operands from every in-range word of every format |
| Decoder.AssemblerInjective | src/assembler/code_generator.cpp:46-307 | equal words come from equal mnemonics and equal operands, across all tables |
| Decoder.ImmediateRecovered | src/vm/vm_base.cpp:96-173 | ImmGenerator undoes the encoding of every in-range immediate; exactly a non-zero addiw is lost |
| Decoder.AddiwReadsZero | src/vm/vm_base.cpp:102-173 | addiw by 1 is read with immediate 0 |
| Decoder.ShiftImmediate | src/vm/alu.cpp:509-532 | slli, srli and srai shift by their operand, the ALU masking the leaked immediate with 63 |
| BackPatching.NoFailuresExactly | src/assembler/parser.cpp:594-684 | no error is recorded if and only if every listed unit is a branch or jump to a known label in reach, of the text section for a branch |
| BackPatching.FailuresCounted | src/assembler/parser.cpp:594-684 | each listed unit that cannot be patched as it was parsed is one failure |
| BackPatching.PatchingFrame | src/assembler/parser.cpp:594-684 | back-patching changes nothing but immediates and flags, at listed indices only |
| BackPatching.PatchedInstructionReachesLabel | src/assembler/parser.cpp:594-684 | without a recorded error, four times the index plus the immediate read off the emitted word is the label's address |
| FirstPass.IterationProgress | src/assembler/parser.cpp:521-555 | every iteration of the outer loop consumes a token, or stands still on a stalling one |
| FirstPass.TerminatesExactly | src/assembler/parser.cpp:521-555 | the first pass ends if and only if no LABEL or OPCODE token before the first end of file is spelled data, section or bss |
| FirstPass.SectionNamedLabelLoops | src/assembler/parser.cpp:537-542 | a file of one label named data, bss or section is never read to its end |
| SectionBounds.LabelEntered | src/assembler/parser.cpp:75-109 | a label is entered with its line at the next multiple of 8 before dword and double, 4 before word and float, 2 before halfword, and at the index itself otherwise |
| SectionBounds.ValueRun | src/assembler/parser.cpp:114-233 | the value loop takes only tokens of the directive's kind and commas |
| SectionBounds.ValueRunEnds | src/assembler/parser.cpp:114-233 | and it takes all of them |
| SectionBounds.KindSpelled | src/assembler/parser.cpp:114-233 | byte, halfword, word, dword and zero take numbers, float and double floats, string strings |
| SectionBounds.SectionEndsBefore | src/assembler/parser.cpp:68-72 | a data section does not run past a directive spelled text, data, bss or section |
| SectionBounds.SectionStopsOn | src/assembler/parser.cpp:68-72 | it ends at the end of the file or at a token so spelled |
| SectionBounds.SectionEntry | src/assembler/parser.cpp:68-72 | none of its entries starts with such a token |
| SectionBounds.BssBounds | src/assembler/parser.cpp:461-468 | a bss section is skipped exactly to the next such token or the end of the file, and changes only the position |
| SectionBounds.TextBounds | src/assembler/parser.cpp:537-542 | text is skipped exactly to the next token spelled data, bss or section or the end of the file |
| SectionBounds.OutsideData | src/assembler/parser.cpp:521-555 | only a data directive changes more than position and error count, and outside data sections only a token that is no label, opcode or section directive is an error |
| SectionBounds.SectionErrors | src/assembler/parser.cpp:63-254 | a data section adds two to the error count for each label before none of the eight directives, each entry that is neither label nor directive, and each count of zero that is 0, and nothing else |
| AssemblyParser.Parser.constructor | src/assembler/parser.cpp:516-518 | the parser starts at the first token with nothing recorded |
| AssemblyParser.Parser.Emplace | src/assembler/parser.cpp:63-67 | aligns the data index, appends the datum, advances by its size |
| AssemblyParser.Parser.ParseValues | src/assembler/parser.cpp:111-126 | the value loop of each directive appends its data at aligned offsets |
| AssemblyParser.Parser.ParseDataLabel | src/assembler/parser.cpp:75-109 | a label is entered with the index aligned for the directive after it |
| AssemblyParser.Parser.ParseDataDirective | src/assembler/parser.cpp:63-254 | the nested loops compute the data section function DataLayout reasons about, and terminate |
| AssemblyParser.Parser.FirstPass | src/assembler/parser.cpp:516-555 | on token lists that do not stall, the first pass ends at an end of file in a state of the iteration DataLayout reasons about |
| AssemblyParser.Parser.BackPatch | src/assembler/parser.cpp:594-684 | the loop computes the patched code and counts every failure twice |
| DataLayout.IterateRecorded | src/assembler/parser.cpp:521-555 | after any iterations, on any tokens, data index, buffer and symbol table agree with the placements made |
| DataLayout.LayoutsAgreeExactly | src/vm/vm_base.cpp:32-79 | parser and loader give every datum the same offset if and only if each datum's loader offset is a multiple of the alignments of the labels waiting before it |
| DataLayout.LabelOfFirstValue | src/assembler/parser.cpp:75-109 | a label directly before a datum of its alignment has that datum's offset |
| TokenLayout.FileScanned | src/assembler/parser.cpp:63-254 | a scan of the tokens alone finds the labels and data that the first pass places, in order |
| TokenLayout.FileAgreesExactly | src/vm/vm_base.cpp:32-79 | for every file, the loader recomputes the parser's offsets if and only if every datum of the scan, aligned for itself, meets the greatest alignment of the labels since the datum before |
| TokenLayout.EmptyDirectiveDisagrees | src/assembler/parser.cpp:75-109 | byte 1, an empty dword labelled x, byte 2: read to the end without an error, with different offsets |
| ServedLabels.FileServedPlacements | src/assembler/parser.cpp:63-254 | if every labelled directive of the file emits a value, every label is placed directly before a datum of its alignment |
| ServedLabels.ServedFileAgrees | src/vm/vm_base.cpp:32-79 | for such files the loader recomputes the parser's offsets, and each label has the offset of its first value |
| MainMemory.Memory.constructor | include/vm/main_memory.h:91-93 | a new memory has no blocks |
| MainMemory.Memory.Reset | include/vm/main_memory.h:99-101 | Reset drops every block |
| MainMemory.Memory.Read | src/vm/main_memory.cpp:21-31 | a byte in range is its block's byte, or 0 without a block |
| MainMemory.Memory.Write | src/vm/main_memory.cpp:33-59 | a byte in range is replaced, its block created when missing |
| MainMemory.Memory.ReadGeneric | src/vm/main_memory.cpp:61-68 | assembles the bytes of a range, least significant first, unless one of them is out of range |
| MainMemory.Memory.ReadSized | src/vm/main_memory.cpp:77-103 | guard and loop of the sized readers, exceptions included |
| MainMemory.Memory.WriteGeneric | src/vm/main_memory.cpp:70-75 | stores the bytes in order, up to the one whose address is rejected |
| MainMemory.Memory.WriteSized | src/vm/main_memory.cpp:131-157 | guard and loop of the sized writers, exceptions included |
| MainMemory.RunRefines | src/vm/main_memory.cpp:21-179 | for every sequence of sized reads, writes and resets, blocks of any size answer like a flat byte map that is 0 by default, and end representing it |
| MainMemory.FlatWriteAt | src/vm/main_memory.cpp:70-75 | a write replaces the bytes of its range and no others |
| MainMemory.ReadBack | src/vm/main_memory.cpp:61-75 | a stored value reads back truncated to its width, little-endian |
| MainMemory.LittleEndian | src/vm/main_memory.cpp:70-75 | byte i of a stored value is its bits 8i to 8i + 7 |
| MainMemory.LoadAnswers | src/vm/main_memory.cpp:77-103 | a sized read answers the value of its bytes if and only if its range lies inside the memory, otherwise it is rejected |
| MainMemory.StoreAnswers | src/vm/main_memory.cpp:131-157 | a sized write succeeds if and only if its range lies inside the memory, and then replaces the range |
| MainMemory.StoredLoads | src/vm/main_memory.cpp:77-157 | after a successful write the same read answers the value, truncated to the width |
| MainMemory.ElsewhereLoads | src/vm/main_memory.cpp:77-157 | reads of other addresses answer the same before and after any write, rejected or not |
| MainMemory.ClearedLoads | include/vm/main_memory.h:99-101 | after a reset every read inside the memory answers 0 |
| MainMemory.RejectedWriteStoresNothing | src/vm/main_memory.cpp:131-157 | a write stores all of its bytes or none, except exactly when its address lies inside a memory smaller than the width minus one; in larger memories it succeeds if and only if its whole range is inside |
| MainMemory.RejectionHarmlessExactly | src/vm/main_memory.cpp:131-157 | every rejected write leaves every memory as it was, if and only if the address does not lie inside a memory smaller than the width minus one |
| MainMemory.PartialWrite | src/vm/main_memory.cpp:152-157 | a double word rejected after three stored bytes |
| Loader.LoadText | src/vm/vm_base.cpp:24-28 | the text loop with its 32-bit counter, up to the first rejected write |
| Loader.LoadDatum | src/vm/vm_base.cpp:33-78 | one data element, strings byte by byte |
| Loader.LoadProgram | src/vm/vm_base.cpp:22-79 | the memory, the outcome and program_size_ after loading, rejected writes included |
| LoadedProgram.BytesLoaded | src/vm/vm_base.cpp:71-77 | the bytes of a string, written one by one, make one contiguous write |
| LoadedProgram.LoadedInChunks | src/vm/vm_base.cpp:22-79 | a program that fits is loaded without an exception |
| LoadedProgram.InstructionReadsBack | src/vm/vm_base.cpp:24-28 | with the text before the data start, instruction word k is found at 4k after everything has been loaded |
| LoadedProgram.InstructionFetched | src/vm/main_memory.cpp:91-96 | ReadWord at 4k returns instruction word k |
| LoadedProgram.DataReadsBack | src/vm/vm_base.cpp:32-79 | every data element is found at its aligned offset after the data start: no later write overlaps an earlier one |
| LoadedProgram.LoaderHonoursParser | src/vm/vm_base.cpp:32-79 | loaded data stands at the data start plus the parser's offsets whenever the labels fit |
| LoadedProgram.LabelledValueLoaded | src/assembler/parser.cpp:63-254 | from tokens to memory: the first value after a label is found at the data start plus the label's symbol address |
| LoadedProgram.SymbolLoaded | src/assembler/parser.cpp:63-254 | the same for every name in the symbol table |
| DataValues.ScalarAppended | src/assembler/parser.cpp:114-186 | a value token of byte, halfword, word, dword, float or double adds one datum of 1, 2, 4, 8, 4 or 8 bytes, aligned, whose value is the token's modulo the width |
| DataValues.ZerosAppended | src/assembler/parser.cpp:187-199 | a positive count of zero adds that many zero bytes |
| DataValues.StringAppended | src/assembler/parser.cpp:219-233 | a string adds one datum: the codes of its unescaped characters modulo 256, then a zero byte |
| DataValues.EscapesRead | src/utils.cpp:90-117 | a backslash before n, t, backslash or a double quote stands for newline, tab, backslash or double quote |
| DataValues.OthersKept | src/utils.cpp:90-117 | before other characters and at the end it is kept, and so is every other character |
| DataValues.UnescapeInverts | src/utils.cpp:90-117 | every string can be written with these escapes and is read back |
| DataValues.LabelledScalarRead | src/assembler/parser.cpp:63-254 | wherever a label, a directive byte to double and a value token stand in the data sections, a read of that width at the label's address answers the value modulo the width, once the data is loaded |
| DataValues.LoadedScalarRead | src/vm/vm_base.cpp:32-79 | the same on the memory that LoadProgram leaves |
| LoadedProgram.WellLabelledLoaded | src/vm/vm_base.cpp:32-79 | for every file whose scan meets the exact layout condition, each datum is held at the data start plus the parser's offset after loading |
| LoadedCode.FetchedInstructionDecodes | src/vm/main_memory.cpp:91-96 | after loading, the word fetched at 4i decodes to the mnemonic and operands of unit i |
| LoadedCode.FetchedInstructionReachesLabel | src/vm/vm_base.cpp:102-173 | from parsed unit to fetched word: without back-patching errors, 4i plus the immediate of the word fetched at 4i is the address of the label |
| LineMap.BuildLineMap | src/assembler/assembler.cpp:56-72 | a line belongs to the last instruction that claims it, and to none if none does |
| LineMap.FaithfulExactly | src/assembler/assembler.cpp:56-72 | the next row generalised to any entries: every line up to the furthest maps to the first instruction at or after it if and only if lines only climb from the furthest so far |
| LineMap.OrderedLinesMapToFirst | src/assembler/assembler.cpp:56-72 | for instructions numbered from 0 with lines that never decrease, lines 1 to the last map to the first instruction at or after them |
| Bfloat16.NarrowRoundsExactly | src/fp_utils/bfloat16.cpp:15-25 | float_to_bfloat16 rounds to the nearest multiple of 2^16, ties to even, if and only if the pattern is below 0xFFFF8000; the error is then at most 2^15, and the other patterns give 0 |
| Bfloat16.NarrowMonotone | src/fp_utils/bfloat16.cpp:15-25 | rounding is monotone below 0xFFFF8000 |
| Bfloat16.NarrowInvertsWiden | src/fp_utils/bfloat16.cpp:7-25 | every bfloat16 pattern survives widening and rounding |
| Bfloat16.LostNaNs | src/fp_utils/bfloat16.cpp:15-25 | a NaN that becomes infinity, one that becomes minus zero, and one that becomes zero |
| Bfloat16.NaNSurvivesExactly | src/fp_utils/bfloat16.cpp:15-25 | a NaN stays a NaN if and only if its magnitude lies strictly between 0x7F808000 and 0x7FFF8000 |

## Reading notes

- The six unrolled mask comparisons of `compute_ecc` and `checkError` are one loop over the masks, and the eight
  value loops of `parseDataDirective` one method with the directive as parameter. The branches of the first
  pass are told apart by `FirstPass.PartOf`.
- The random draw of `kInjectFlip` is an argument: no flip, or one bit of 0 to 31.
- Registers, CSR numbers, rounding modes and immediates of an intermediate-code unit are numbers; their
  spelling and `std::stoi` are not modelled. `ReadGeneric` or-s bytes that do not overlap, which is written as
  a sum.
- A number token carries the values `std::stoull`, `std::stof` and `std::stod` read off it; that they can throw
  is not modelled. Floats and doubles are bit patterns. Characters count modulo 256.
- `RecordError` adds 2 because the source increments the count and `recordError` increments it again.
- `data_index_` is 64 bits wide in the source and unbounded here; the loader's 32-bit counters wrap as in the
  source, and `LoadedProgram.Fits` is what keeps them from wrapping.
- The block size is a positive constant of the memory object.

## Left out

- AssemblyParser.Parser.FirstPass: requires that no token stalls, because the source does not return otherwise (`FirstPass.TerminatesExactly`).
- BackPatching.PatchedInstructionReachesLabel: takes labels of the text section to be multiples of 4 below 2^32, as the second pass enters them, which is not modelled.
- AluTheorems.Simd32Lanes: packed 32-bit division and remainder of the least integer by -1 are undefined in C++; here they wrap.
- The second parser pass, its operand parsers and pseudo-instructions: intermediate code and back-patch list are given.
- The lexer: a token list is given.
- Floating-point arithmetic of the ALU (`fpexecute`, `dfpexecute`, the bfloat16 and packed-float operations): host floating point.
- The remaining ALU cases (W forms, unsigned division, comparisons, logic, packed loads): they would only add easy members.
- The concrete virtual machine with its control unit, undo and redo, and breakpoints.
- The register file, the accessors of main memory for floats (the integer accessors with another type), and symbol printing.
- File dumps, state dumps, ELF writing, configuration, the command line and threads.
