# MajiroLib bytecode pipeline in Dafny

This project models the script library of MajiroTools (`src/MajiroLib`), which reads, writes and
analyses the compiled scripts (`.mjo`) of the Majiro visual-novel engine. It covers these parts:

- **The flag word.** A 16-bit operand packs an array dimension, a type, a scope, an invert mode
  and a modifier. There are also the type masks, and the older copy of the same layout.
- **CRC-32 and the XOR keystream.** This is the reflected 0xEDB88320 CRC of IEEE 802.3, clause
  3.2.9. The library also keeps:
  - its 64-bit variant, which pushes the ECMA-182 polynomial value through the same reflected
    loop and is therefore not the ECMA-182 checksum;
  - the byte-wise inverse that rewinds a target hash through a known suffix;
  - the keystream cut from the table's bytes, which encrypts script bodies.
- **The name search.** `CrcUnhasher` is an odometer over a charset that reports every candidate
  name whose hash is the target. After a match it saturates the first four levels and so jumps
  over the candidates that differ from the match only in their first four bytes. None of those
  can be another answer, because CRC-32 is one-to-one on four bytes from a given register.
- **The opcode table** and the instruction predicates.
- **The bytecode codec.**
  - The per-letter operand decoder (`ReadInstruction`) and encoder (`AssembleInstruction`), and
    the size function (`GetInstructionSize`).
  - The file header, the function index and the encrypted body (`DisassembleScript`,
    `AssembleScript`).
- **The assembly text.** `Tokenize` is a character state machine. `Parse` is a recursive-descent
  parser, with both of its forms: blocks with labels, and addressed instruction lines.
- **The control-flow pass** (`ControlFlowPass.cs`):
  - splitting a script into functions and then into basic blocks;
  - linking the blocks;
  - dropping the unreachable ones;
  - flattening the graph back into an instruction list with fresh offsets and recomputed jump
    and switch displacements.
- **The graph orderings** of `Helpers.cs`: pre-order, post-order and topological sort.
- **The stack simulator** (`StackState.cs`, `StackTransitionPass.cs`): the symbolic evaluation
  stack, the per-opcode transition descriptors, the conversion of each function into SSA form
  with phi nodes where predecessors disagree, and the conversion back.
- **The decompiler** (`DecompilerPass.cs`): the dominators by the iterative algorithm of Cooper,
  Harvey and Kennedy, and the reading of each function's instructions into statements and
  expressions over an evaluation stack.
- **The dump printer** (`DumpVisitor.cs`), which writes a decompiled syntax tree as text.
- **The two earlier control-flow builders** (`Analysis/ControlFlowGraph.cs` and
  `Analysis/ControlFlow/ControlFlowGraph.cs`), with a worked input on which the second rejects
  a loop.

Each operation is a function, or a method proved against a specification function. Its contract
ties the result to the inputs. Beside it are lemmas for what the source relies on:

- round trips: decode after encode, `Build` then extract, `Crypt` twice, hash then inverse hash,
  and write then read of a whole file;
- invariants the passes keep: blocks that partition a function, edges that point into the arena,
  and the unreachable blocks that are gone;
- orderings: the sorts give permutations of the reachable blocks, in the promised order.

`Debug.Assert` and `Debug.Fail` are read as in a debug build. A failed assertion is an error
result (`AssertFailed`), and an assertion's side effects happen. A thrown exception is an error
result (`Thrown`) carrying the source's message.

## Model

| member | source | states |
|---|---|---|
| Flags.MaskLayout | src/MajiroLib/Script/Flags.cs:9-15 | the five field masks are pairwise disjoint and together cover bits 0-12 |
| Flags.Dimension | src/MajiroLib/Script/Flags.cs:67 | the dimension is bits 11-12, a value 0..3 |
| Flags.Type | src/MajiroLib/Script/Flags.cs:68 | the type is bits 8-10 |
| Flags.Scope | src/MajiroLib/Script/Flags.cs:69 | the scope is bits 5-7 |
| Flags.InvertMode | src/MajiroLib/Script/Flags.cs:70 | the invert mode is bits 3-4 |
| Flags.Modifier | src/MajiroLib/Script/Flags.cs:71 | the modifier is bits 0-2 |
| Flags.ExtractorsReadOnlyTheirField | src/MajiroLib/Script/Flags.cs:67-71 | two flag words agree on an extractor exactly when they agree on that field's mask |
| Flags.ToMask | src/MajiroLib/Script/Flags.cs:73 | Unknown maps to All; another type maps to the one-hot bit `1 << type`, which is 0 once the shift leaves the byte |
| Flags.KnownTypeMasks | src/MajiroLib/Script/Flags.cs:28-42 | the six named types map to their named masks, and the group masks are the unions the enum declares |
| Flags.Matches | src/MajiroLib/Script/Flags.cs:74 | Unknown matches every mask; a known type matches exactly when its bit is in the mask |
| Flags.Array | src/MajiroLib/Script/Flags.cs:76-78 | succeeds exactly for the types that match Primitive, giving type + 3; array types throw |
| Flags.ElementType | src/MajiroLib/Script/Flags.cs:80-82 | succeeds exactly for the types that match Array, giving type - 3; primitive types throw |
| Flags.ElementTypeUndoesArray | src/MajiroLib/Script/Flags.cs:76-82 | the element type of the array type of a primitive type is that type |
| Flags.ArrayOfUnknownIsString | src/MajiroLib/Script/Flags.cs:74-82 | Unknown passes both checks, so its array type wraps around the byte to String and its element type is 252 |
| Flags.Build | src/MajiroLib/Script/Flags.cs:84-85 | for in-range fields, every extractor gives back its own argument and bits 13-15 are clear |
| Flags.ExtractThenBuild | src/MajiroLib/Script/Flags.cs:67-85 | building from the five extracted fields gives back any flag word whose bits 13-15 are clear |
| LegacyFlags.Dimension | MajiroLib/Script/Flags.cs:66 | the older extractor equals the current one |
| LegacyFlags.Type | MajiroLib/Script/Flags.cs:67 | the older extractor equals the current one, and it names one of the six declared types exactly when the value is below 6 |
| LegacyFlags.Scope | MajiroLib/Script/Flags.cs:68 | the older extractor equals the current one |
| LegacyFlags.InvertMode | MajiroLib/Script/Flags.cs:69 | the older extractor equals the current one |
| LegacyFlags.Modifier | MajiroLib/Script/Flags.cs:70 | the older extractor equals the current one |
| LegacyFlags.SameLayout | MajiroLib/Script/Flags.cs:9-25 | the older masks are the current ones; the older type enum has six members and no Unknown |
| Crc.Calculate32 | src/MajiroLib/Script/Crc.cs:15-22 | the loop's result is eight reflected rounds with 0xEDB88320 on the seed's 32-bit pattern |
| Crc.EightRounds32 | src/MajiroLib/Script/Crc.cs:18-20 | eight iterations of the branching round equal the unrolled table entry |
| Crc.Calculate64 | src/MajiroLib/Script/Crc.cs:23-33 | the loop's result is eight reflected rounds with 0x42F0E1EBA9EA3693 on the seed's sign-extended 64-bit pattern |
| Crc.CalcIsTable | src/MajiroLib/Script/Crc.cs:8 | the table has 256 entries, and entry i is Calculate32(i) |
| Crc.KnownEntries32 | src/MajiroLib/Script/Crc.cs:8 | entries 0, 1, 128 and 255 are those of the IEEE 802.3 table |
| Crc.KnownEntries64 | src/MajiroLib/Script/Crc.cs:12-27 | entry 128 is the polynomial itself, not the reflected ECMA-182 entry 0xC96C5795D7870F42 |
| Crc.CalculateInverse32 | src/MajiroLib/Script/Crc.cs:35-42 | the loop returns the first seed index whose entry has the given top byte, or throws |
| Crc.Inverse32Spec | src/MajiroLib/Script/Crc.cs:35-42 | the inverse exists exactly when some entry has that top byte, and then it is the first such index |
| Crc.Inverse32OfByte | src/MajiroLib/Script/Crc.cs:9-42 | every byte value has an inverse, so building `Crc32Index` never throws |
| Crc.IndexAtHitsTopByte | src/MajiroLib/Script/Crc.cs:9 | `Crc32Index[m]` names the entry whose top byte is m |
| Crc.KeyLayout32 | src/MajiroLib/Script/Crc.cs:10 | the key has 1024 bytes; byte 4i+j is byte j of entry i, least significant first |
| Crc.KeyLayout64 | src/MajiroLib/Script/Crc.cs:13 | the 64-bit key has 2048 bytes; byte 8i+j is byte j of entry i |
| Crc.Crypt32 | src/MajiroLib/Script/Crc.cs:44-48 | the array becomes its old contents XORed with the key from keyOffset on, modulo 1024 |
| Crc.Crypt64 | src/MajiroLib/Script/Crc.cs:50-54 | the same with the 2048-byte key |
| Crc.CryptTwice | src/MajiroLib/Script/Crc.cs:44-54 | both keystreams keep the length, and applying one twice with the same offset restores the bytes |
| Crc.CryptOffsetWraps | src/MajiroLib/Script/Crc.cs:46-52 | offsets that differ by the key length crypt alike |
| Crc.Hash32 | src/MajiroLib/Script/Crc.cs:58-64 | the loop is the complemented table-driven CRC fold |
| Crc.Hash64 | src/MajiroLib/Script/Crc.cs:94-100 | the same fold over the 64-bit table |
| Crc.HashChains32 | src/MajiroLib/Script/Crc.cs:58-64 | hashing a + b from init equals hashing b from the hash of a |
| Crc.HashChains64 | src/MajiroLib/Script/Crc.cs:94-100 | the same for the 64-bit hash |
| Crc.CheckValue32 | src/MajiroLib/Script/Crc.cs:58-64 | "123456789" hashes to 0xCBF43926, the IEEE 802.3 check value |
| Crc.CheckValue64 | src/MajiroLib/Script/Crc.cs:94-100 | "123456789" hashes to 0xB86883E6FA710A9F |
| Crc.Hash32At | src/MajiroLib/Script/Crc.cs:65-71 | succeeds exactly when the slice is inside the array (else the index throws), and returns the hash of the slice |
| Crc.Hash64At | src/MajiroLib/Script/Crc.cs:101-107 | the same for the 64-bit hash |
| Crc.StepUndoesUnstep | src/MajiroLib/Script/Crc.cs:61-79 | one forward step after one rewind step with the same byte restores the register |
| Crc.UnstepUndoesStep | src/MajiroLib/Script/Crc.cs:61-79 | one rewind step after one forward step with the same byte restores the register |
| Crc.HashInverse32 | src/MajiroLib/Script/Crc.cs:75-82 | the loop rewinds the complemented register through the bytes back to front |
| Crc.HashOfInverse | src/MajiroLib/Script/Crc.cs:58-82 | hashing the bytes from HashInverse32(bytes, t) gives t |
| Crc.InverseOfHash | src/MajiroLib/Script/Crc.cs:58-82 | rewinding Hash32(bytes, x) through the bytes gives x |
| Crc.HashReachesIff | src/MajiroLib/Script/Crc.cs:58-82 | Hash32(bytes, x) == t exactly when x == HashInverse32(bytes, t) |
| Crc.HashInjective32 | src/MajiroLib/Script/Crc.cs:58-64 | two byte strings of one length, at most four, that Hash32 maps to the same value from the same init are equal |
| Crc.HashInitInjective32 | src/MajiroLib/Script/Crc.cs:58-82 | Hash32 of the same bytes from two inits gives the same value only when the inits are equal |
| Crc.FoldInjective | src/MajiroLib/Script/Crc.cs:58-64 | for any table whose entries have distinct top bytes, the loop's register after at most four bytes determines those bytes |
| Crc.FoldsAgree | src/MajiroLib/Script/Crc.cs:58-64 | two registers from which k <= 4 bytes each reach the same register differ only in their k low bytes |
| Crc.Table32Indexed | src/MajiroLib/Script/Crc.cs:8-9 | `Crc32Index` undoes the top byte of every `Crc32Table` entry, so those top bytes are distinct |
| Crc.FoldWithTable32 | src/MajiroLib/Script/Crc.cs:58-64 | the loop with the table passed as a parameter, given `Crc32Table`, is Hash32's loop |
| Crc.HashInverse32At | src/MajiroLib/Script/Crc.cs:83-90 | succeeds exactly when the slice is inside the array, and rewinds through the slice front to back |
| Crc.InverseAtInvertsReversedSlice | src/MajiroLib/Script/Crc.cs:83-90 | HashInverse32At over a slice is HashInverse32 of the reversed slice, so it inverts the hash of the reversed slice |
| LegacyCrc32.Calculate | src/MajiroLib/Script/Crc32.cs:11-18 | the older loop computes the same entry as Crc.Calculate32 |
| LegacyCrc32.TableIsCrc32Table | src/MajiroLib/Script/Crc32.cs:8 | the older table is Crc's table, entry for entry |
| LegacyCrc32.KeyIsCryptKey32 | src/MajiroLib/Script/Crc32.cs:9 | the older key is the 1024-byte CryptKey32 |
| LegacyCrc32.Crypt | src/MajiroLib/Script/Crc32.cs:20-24 | the array becomes its old contents XORed with the older key from keyOffset on |
| LegacyCrc32.CryptIsCrypt32 | src/MajiroLib/Script/Crc32.cs:20-24 | the older Crypt is Crc.Crypt32, and so it is its own inverse |
| LegacyCrc32.Hash | src/MajiroLib/Script/Crc32.cs:28-34 | starting from 0xFFFFFFFF and complementing at the end is Crc.Hash32 with init 0 |
| Unhasher.MatchIsPreimage | src/MajiroLib/Script/CrcUnhasher.cs:37-93 | `Hash32(buffer, init) == expected` holds exactly when prefix + buffer + postfix hashes to the target |
| Unhasher.IncrementCounts | src/MajiroLib/Script/CrcUnhasher.cs:114-129 | one odometer step adds one to the levels read as a number in base `charset.Length`; on a wrap the number was the largest and becomes 0 |
| Unhasher.IncrementWrapsIff | src/MajiroLib/Script/CrcUnhasher.cs:115-129 | the step wraps exactly when every level is at the top |
| Unhasher.IncrementKeepsDigits | src/MajiroLib/Script/CrcUnhasher.cs:115-127 | the step keeps the length and every level inside the charset |
| Unhasher.SaturatedWraps | src/MajiroLib/Script/CrcUnhasher.cs:103-127 | after a match saturates the first four levels, the step skips on to the fifth position |
| Unhasher.ResetLoop | src/MajiroLib/Script/CrcUnhasher.cs:77-80 | on success every level is 0 and every buffer byte is `charset[0]`; with an empty charset and a positive length, level 0 is cleared and then reading `charset[0]` throws |
| Unhasher.SaturateLoop | src/MajiroLib/Script/CrcUnhasher.cs:103-105 | the first min(4, length) levels become the top level |
| Unhasher.CarryLoop | src/MajiroLib/Script/CrcUnhasher.cs:114-127 | the levels become one odometer step of the old levels, the buffer spells them, and the result tells whether it wrapped |
| Unhasher.CrcUnhasher.constructor | src/MajiroLib/Script/CrcUnhasher.cs:11-27 | the field defaults: target 0, empty prefix and postfix, the default charset, length 0, nothing current or finished |
| Unhasher.CrcUnhasher.Reset | src/MajiroLib/Script/CrcUnhasher.cs:75-83 | only the levels, the buffer, `current` and `finished` change; on success the odometer is at zero with nothing current |
| Unhasher.CrcUnhasher.SetTarget | src/MajiroLib/Script/CrcUnhasher.cs:33-40 | sets the target and resets |
| Unhasher.CrcUnhasher.SetPrefix | src/MajiroLib/Script/CrcUnhasher.cs:41-48 | sets the prefix and resets |
| Unhasher.CrcUnhasher.SetPostfix | src/MajiroLib/Script/CrcUnhasher.cs:49-56 | sets the postfix and resets |
| Unhasher.CrcUnhasher.SetCharset | src/MajiroLib/Script/CrcUnhasher.cs:57-64 | sets the charset bytes and resets |
| Unhasher.CrcUnhasher.SetLength | src/MajiroLib/Script/CrcUnhasher.cs:65-73 | a negative length throws; otherwise fresh arrays of that length, reset |
| Unhasher.CrcUnhasher.Check | src/MajiroLib/Script/CrcUnhasher.cs:92-93 | the test is true exactly when prefix + buffer + postfix hashes to the target |
| Unhasher.CrcUnhasher.Advance | src/MajiroLib/Script/CrcUnhasher.cs:103-127 | the levels take one odometer step, after the first four are saturated when the pattern matched |
| Unhasher.CrcUnhasher.Step | src/MajiroLib/Script/CrcUnhasher.cs:92-129 | a matching pattern becomes current, the odometer steps, the counter goes up by one, and `finished` says whether it wrapped |
| Unhasher.CrcUnhasher.MoveNext | src/MajiroLib/Script/CrcUnhasher.cs:85-131 | once finished it returns false with nothing current; before that it returns true and takes one Step |
| Unhasher.SkipLosesNothing | src/MajiroLib/Script/CrcUnhasher.cs:92-105 | a candidate of the match's length, with the match's bytes from position min(4, length) on, whose pattern also hashes to the target is the match itself |
| Unhasher.SkippedShareTail | src/MajiroLib/Script/CrcUnhasher.cs:103-129 | every level vector from the match up to (not including) the levels the saturated step moves to, or every one after the match when the step wraps, has the match's levels from position 4 on |
| Unhasher.SkippedMatchIsTheMatch | src/MajiroLib/Script/CrcUnhasher.cs:85-131 | a candidate MoveNext jumps over after a match, whose pattern hashes to the target, spells the bytes of the match: the saturation loses no answer |
| Unhasher.ValueSplit | src/MajiroLib/Script/CrcUnhasher.cs:114-129 | the odometer's counter of a + c is that of a plus that of c times n to the power of the length of a |
| Unhasher.ValueBounds | src/MajiroLib/Script/CrcUnhasher.cs:114-129 | levels inside the charset spell a counter from 0 below n to the power of their number |
| Unhasher.ValueInjective | src/MajiroLib/Script/CrcUnhasher.cs:114-129 | level vectors of one length inside the charset with the same counter are equal |
| Opcodes.DefineOpcode | src/MajiroLib/Script/Opcode.cs:39-41 | succeeds exactly when the value fits in 16 bits (the `checked` cast), and then stores every argument as given |
| Opcodes.Suffixed | src/MajiroLib/Script/Opcode.cs:52 | each alias with the suffix appended, in order |
| Opcodes.Paired | src/MajiroLib/Script/Opcode.cs:47-49 | twice as many names: each alias paired with its ".i" form, in the given order |
| Opcodes.PairedNames | src/MajiroLib/Script/Opcode.cs:47-49 | a name is paired exactly when it is an alias or an alias with ".i" |
| Opcodes.IntVariantNames | src/MajiroLib/Script/Opcode.cs:46-97 | the Int variant of an Int-only family keeps the bare mnemonic, and the one of a wider family gets ".i"; the other spelling becomes the first alias |
| Opcodes.CollectFailIff | src/MajiroLib/Script/Opcode.cs:43-65 | defining the variants fails exactly when one of the defined attempts fails |
| Opcodes.VariantsFailIff | src/MajiroLib/Script/Opcode.cs:43-104 | a generator throws exactly when one of its allowed variants has a value beyond 16 bits |
| Opcodes.VariantsFollowIndices | src/MajiroLib/Script/Opcode.cs:43-104 | the generator's i-th opcode is the variant of its i-th allowed type index |
| Opcodes.VariantValues | src/MajiroLib/Script/Opcode.cs:43-104 | the i-th defined opcode has the value base plus the i-th allowed type index |
| Opcodes.VariantsIncreaseWithin | src/MajiroLib/Script/Opcode.cs:43-104 | a generator's values increase and stay in [base, base + 6), or [base, base + 3) for array assignments |
| Opcodes.VariantsSound | src/MajiroLib/Script/Opcode.cs:43-104 | every defined opcode is the variant of an allowed type index |
| Opcodes.VariantsComplete | src/MajiroLib/Script/Opcode.cs:43-104 | every allowed type index has its variant among the defined opcodes |
| Opcodes.VariantIndex | src/MajiroLib/Script/Opcode.cs:43-104 | each defined opcode names the allowed type index it comes from |
| Opcodes.VariantAt | src/MajiroLib/Script/Opcode.cs:43-104 | an opcode found among the variants sits at its own type index |
| Opcodes.BinaryTransitions | src/MajiroLib/Script/Opcode.cs:47-64 | a comparison pops two operands of one type and pushes a boolean; arithmetic on arrays has only the "-" transition |
| Opcodes.AssignmentTransitions | src/MajiroLib/Script/Opcode.cs:71-88 | the pop variant's descriptor ends at '.', and the other one pushes back the stored type; both encode "fho" |
| Opcodes.ArrayAssignmentTransitions | src/MajiroLib/Script/Opcode.cs:95-103 | an array assignment pops the value, then one integer index per dimension |
| Opcodes.ExpandLaidOut | src/MajiroLib/Script/Opcode.cs:108-190 | families at least eight values apart expand without error into increasing values inside their range |
| Opcodes.BinaryRowsSpaced | src/MajiroLib/Script/Opcode.cs:108-127 | the binary-operator families sit eight apart from 0x100 to 0x190 |
| Opcodes.AssignmentRowsSpaced | src/MajiroLib/Script/Opcode.cs:140-164 | the assignment families sit at least eight apart from 0x1b0 to 0x268 |
| Opcodes.ArrayAssignmentRowsSpaced | src/MajiroLib/Script/Opcode.cs:166-190 | the array-assignment families sit at least eight apart from 0x270 to 0x328 |
| Opcodes.BinaryLaidOut | src/MajiroLib/Script/Opcode.cs:108-127 | the binary operators expand without error into increasing values in [0x100, 0x190) |
| Opcodes.AssignmentLaidOut | src/MajiroLib/Script/Opcode.cs:140-164 | the assignment operators expand without error into increasing values in [0x1b0, 0x268) |
| Opcodes.ArrayAssignmentLaidOut | src/MajiroLib/Script/Opcode.cs:166-190 | the array-assignment operators expand without error into increasing values in [0x270, 0x328) |
| Opcodes.UnaryDistinct | src/MajiroLib/Script/Opcode.cs:129-138 | the unary operators and nops are seven different values in [0x190, 0x1b0) |
| Opcodes.LoadsAndBranchesAscend | src/MajiroLib/Script/Opcode.cs:193-213 | loads, calls and the fixed branches ascend inside [0x800, 0x834) |
| Opcodes.LateBranchesAscend | src/MajiroLib/Script/Opcode.cs:214-215 | `jle.v` and `jlt.v` ascend inside [0x838, 0x83a) |
| Opcodes.SystemCallsAscend | src/MajiroLib/Script/Opcode.cs:217-222 | the system calls, `argcheck` and `ldelem` ascend inside [0x834, 0x838) |
| Opcodes.LinesTextAndSwitchAscend | src/MajiroLib/Script/Opcode.cs:224-242 | the rest of the 0x800 range ascends inside [0x83a, 0x851) |
| Opcodes.HighDistinct | src/MajiroLib/Script/Opcode.cs:192-243 | the 0x800 range defines no value twice, although it is not written in value order |
| Opcodes.InitIsDistinct | src/MajiroLib/Script/Opcode.cs:36-248 | `Init` succeeds and defines no value twice |
| Opcodes.ToDictionaryOkIff | src/MajiroLib/Script/Opcode.cs:32 | `ToDictionary` succeeds exactly when no value is listed twice |
| Opcodes.ToDictionaryKeys | src/MajiroLib/Script/Opcode.cs:32 | the keys are exactly the listed values |
| Opcodes.ToDictionaryLookup | src/MajiroLib/Script/Opcode.cs:32 | each listed value maps to the opcode listed with it |
| Opcodes.List | src/MajiroLib/Script/Opcode.cs:31 | the list has no value twice |
| Opcodes.ByValue | src/MajiroLib/Script/Opcode.cs:32 | every listed opcode under its own value, and no other key |
| Opcodes.ListedByValue | src/MajiroLib/Script/Opcode.cs:32 | `ByValue` finds every listed opcode under its own value |
| Opcodes.HighAt | src/MajiroLib/Script/Opcode.cs:192-243 | the name and encoding `ByValue` gives for each value of the 0x800 block |
| Opcodes.SwitchIsNotJump | src/MajiroLib/Script/Opcode.cs:29-242 | `switch` (0x850) is listed with encoding "c", so it is not a jump |
| Opcodes.BrTrueIsJump | src/MajiroLib/Script/Opcode.cs:29-205 | `brtrue` (0x82d) is a jump |
| Opcodes.BrFalseIsJump | src/MajiroLib/Script/Opcode.cs:29-206 | `brfalse` (0x82e) is a jump |
| Opcodes.ListPlaceholders | src/MajiroLib/Script/Opcode.cs:226-235 | exactly 0x83b-0x83d, 0x841 and 0x842 carry the unknown transition "???" |
| Instructions.NewInstruction | src/MajiroLib/Script/Instruction.cs:38-41 | the opcode and offset are set, and every other field is at its C# default |
| Instructions.ConditionalBranches | src/MajiroLib/Script/Instruction.cs:28-29 | `brtrue` and `brfalse` are jumps but not unconditional ones |
| Instructions.SwitchIsNoJump | src/MajiroLib/Script/Instruction.cs:28-30 | a decoded switch is never a jump, so the passes treat it on its own |
| Instructions.CallKindsDisjoint | src/MajiroLib/Script/Instruction.cs:34-35 | calls are 0x80f and 0x810 and system calls are 0x834 and 0x835, so no instruction is both |
| Instructions.PhiByMnemonic | src/MajiroLib/Script/Instruction.cs:36 | being a phi depends on the mnemonic alone, and a synthesised phi is one |
| Scripts.IndexFromOffset | src/MajiroLib/Script/MjoScript.cs:18-20 | -1 exactly when no instruction has the offset, otherwise the first index that has it |
| Scripts.IndexOfOwnOffset | src/MajiroLib/Script/MjoScript.cs:18-20 | with strictly ascending offsets, the lookup of instruction k's offset is k |
| Scripts.MjoScript.constructor | src/MajiroLib/Script/MjoScript.cs:12-16 | the arguments are stored as given; a new script is an instruction list with no functions |
| Scripts.MjoScript.InstructionIndexFromOffset | src/MajiroLib/Script/MjoScript.cs:18-20 | the same lookup over the script's own list |
| Bytes.ReadUnsigned | src/MajiroLib/Script/Disassembler.cs:54-123 | `ReadByte`, `ReadUInt16` and `ReadUInt32` succeed exactly when n bytes remain, and give their little-endian value |
| Bytes.ReadSigned | src/MajiroLib/Script/Disassembler.cs:93-118 | `ReadInt16` and `ReadInt32` succeed exactly when the bytes remain, and give their two's-complement value, within the type's range |
| Bytes.ReadBytes | src/MajiroLib/Script/Disassembler.cs:32-76 | a negative count throws; otherwise the requested bytes, cut short at the end of the stream |
| Bytes.WriteUInt16 | src/MajiroLib/Script/Assembler.cs:702-764 | two bytes whose little-endian value is the argument |
| Bytes.WriteUInt32 | src/MajiroLib/Script/Assembler.cs:673-723 | four bytes whose little-endian value is the argument |
| Bytes.WriteInt16 | src/MajiroLib/Script/Assembler.cs:728 | two bytes whose signed value is the argument |
| Bytes.WriteInt32 | src/MajiroLib/Script/Assembler.cs:674-766 | four bytes whose signed value is the argument |
| Bytes.UnsignedOfLittleEndian | src/MajiroLib/Script/Assembler.cs:696 | reading back what was written gives the value |
| Bytes.LittleEndianOfUnsigned | src/MajiroLib/Script/Disassembler.cs:54 | writing what was read gives the bytes back |
| Bytes.SignedRoundTrip | src/MajiroLib/Script/Assembler.cs:728-738 | the signed value of a two's-complement pattern is the value, for 16 and 32 bits |
| Bytes.ReadWritten | src/MajiroLib/Script/Disassembler.cs:54 | a read of n bytes at the start of written bytes sees exactly them |
| Bytecode.ByValueKeyed | src/MajiroLib/Script/Disassembler.cs:55-58 | the opcode table maps each value to an opcode of that value |
| Bytecode.ReadInt32s | src/MajiroLib/Script/Disassembler.cs:129-132 | count ints succeed exactly when 4 * count bytes remain |
| Bytecode.ReadTypeList | src/MajiroLib/Script/Disassembler.cs:64-71 | only the type list changes, and at least the count is consumed |
| Bytecode.ReadString | src/MajiroLib/Script/Disassembler.cs:73-79 | a string is stored, and at least the size is consumed |
| Bytecode.ReadSwitchCases | src/MajiroLib/Script/Disassembler.cs:126-133 | a case table is stored, and at least its count is consumed |
| Bytecode.ReadFixed | src/MajiroLib/Script/Disassembler.cs:81-124 | a fixed-width operand consumes exactly its width and keeps opcode, offset and size |
| Bytecode.ReadOperand | src/MajiroLib/Script/Disassembler.cs:62-137 | a letter that is not a specifier throws; the others keep opcode, offset and size |
| Bytecode.ReadOperands | src/MajiroLib/Script/Disassembler.cs:62-138 | the operands consume at least two bytes per letter and keep opcode, offset and size |
| Bytecode.DecodeInstruction | src/MajiroLib/Script/Disassembler.cs:53-143 | an instruction read at an offset carries that offset and the size it consumed, and its opcode is the table's entry for its value |
| Bytecode.Sized | src/MajiroLib/Script/Disassembler.cs:140 | the errors pass through; otherwise the size becomes the consumed length |
| Bytecode.UnknownOpcodeNamesOffset | src/MajiroLib/Script/Disassembler.cs:55-57 | a value missing from the table throws, naming the value and the offset |
| Bytecode.DecodeInstructionShort | src/MajiroLib/Script/Disassembler.cs:54 | fewer than two bytes left fails with end of stream |
| Bytecode.DecodeInstructionKnown | src/MajiroLib/Script/Disassembler.cs:58-140 | a known value decodes with the table's opcode and the operands its encoding reads |
| Bytecode.ReadInstruction | src/MajiroLib/Script/Disassembler.cs:53-143 | the loop over the encoding's letters computes DecodeInstruction, and returns the next position |
| Bytecode.DecodedTiles | src/MajiroLib/Script/Disassembler.cs:41-51 | the decoded instructions tile the stream: each one starts where the previous one ends |
| Bytecode.DecodedFromTable | src/MajiroLib/Script/Disassembler.cs:41-58 | every decoded instruction carries the table's opcode for its value |
| Bytecode.TilesAscend | src/MajiroLib/Script/Disassembler.cs:41-51 | tiling instructions have strictly ascending offsets |
| Bytecode.DisassembleByteCode | src/MajiroLib/Script/Disassembler.cs:41-51 | the loop decodes from offset 0 until the stream ends, the first failure ending it |
| Disassembler.MagicsDiffer | src/MajiroLib/Script/Disassembler.cs:17-18 | the encrypted and the plain signatures are different |
| Disassembler.IndexAt | src/MajiroLib/Script/Disassembler.cs:23-29 | count entries of eight bytes each, succeeding exactly when they are all there |
| Disassembler.ReadIndex | src/MajiroLib/Script/Disassembler.cs:23-29 | the index loop reads what IndexAt describes |
| Disassembler.ReadHeader | src/MajiroLib/Script/Disassembler.cs:16-32 | the field-by-field reads compute ParseHeader: a bad signature fails the assertion, a negative count or size throws |
| Disassembler.PlainByteCode | src/MajiroLib/Script/Disassembler.cs:33 | decrypting keeps the length |
| Disassembler.DisassembleScript | src/MajiroLib/Script/Disassembler.cs:15-39 | succeeds exactly when the header parses and the decrypted byte code decodes, giving a fresh instruction-list script with the header's entry point and index and the decoded instructions |
| Encoder.EncodeTypeList | src/MajiroLib/Script/Assembler.cs:700-706 | the count, then one byte per type |
| Encoder.EncodeString | src/MajiroLib/Script/Assembler.cs:708-714 | succeeds exactly when there is a string; the size, the bytes and a zero |
| Encoder.EncodeSwitchCases | src/MajiroLib/Script/Assembler.cs:762-768 | succeeds exactly when there are case offsets; the count, then four bytes each |
| Encoder.EncodeFixed | src/MajiroLib/Script/Assembler.cs:716-760 | a fixed-width operand has its width; a missing jump offset throws |
| Encoder.EncodeOperand | src/MajiroLib/Script/Assembler.cs:698-773 | a letter outside the specifiers throws; 's', 'j' and 'c' succeed exactly when their field is set |
| Encoder.Encode | src/MajiroLib/Script/Assembler.cs:695-774 | the encoding starts with the opcode value |
| Encoder.ReadMarks | src/MajiroLib/Script/Assembler.cs:756-760 | the count only grows, to the line number of an instruction with an 'l' operand |
| Encoder.MarksOfEncoding | src/MajiroLib/Script/Assembler.cs:698-760 | the count after the operand loop is the `Math.Max` of the 'l' operands |
| Encoder.AssembleInstruction | src/MajiroLib/Script/Assembler.cs:695-774 | the loop writes Encode(ins) and raises the read-mark count to its line number |
| Encoder.StringSize | src/MajiroLib/Script/Assembler.cs:785-791 | an externalised string throws, a missing one fails the assertion; otherwise the size, the bytes and the zero |
| Encoder.SwitchSize | src/MajiroLib/Script/Assembler.cs:808-811 | the case offsets count when present, else the switch targets; with neither it throws |
| Encoder.OperandSize | src/MajiroLib/Script/Assembler.cs:778-816 | fixed-width operands have their width; a letter outside the specifiers throws |
| Encoder.InstructionSize | src/MajiroLib/Script/Assembler.cs:776-819 | two plus the operand sizes, wrapped to 32 bits |
| Encoder.GetInstructionSize | src/MajiroLib/Script/Assembler.cs:776-819 | the loop computes InstructionSize |
| Encoder.PlacementKeepsSize | src/MajiroLib/Script/Assembler.cs:776-819 | the size does not depend on the offset or the stored size |
| Encoder.SizeOfEncoding | src/MajiroLib/Script/Assembler.cs:695-819 | the size of an encodable instruction is the length of its encoding |
| Codec.TypeListRoundTrip | src/MajiroLib/Script/Disassembler.cs:64-71 | reading an encoded type list gives it back and consumes it |
| Codec.StringRoundTrip | src/MajiroLib/Script/Disassembler.cs:73-79 | reading an encoded string gives it back and consumes it |
| Codec.SwitchRoundTrip | src/MajiroLib/Script/Disassembler.cs:126-133 | reading an encoded case table gives it back and consumes it |
| Codec.OperandRoundTrip | src/MajiroLib/Script/Disassembler.cs:62-137 | each operand letter reads back what the assembler wrote for it |
| Codec.InstructionRoundTrip | src/MajiroLib/Script/Disassembler.cs:53-143 | an encoded instruction decodes at its position to the operands it was encoded from, with its offset and size |
| Assembler.MarksAreMaximum | src/MajiroLib/Script/Assembler.cs:686-758 | the read-mark count bounds every line number with an 'l' operand, and equals one of them or the start |
| Assembler.MarksBound | src/MajiroLib/Script/Assembler.cs:686-692 | the count stays within the 16-bit line numbers |
| Assembler.Misplaced | src/MajiroLib/Script/Assembler.cs:689 | an instruction whose offset is not the running offset fails the assertion |
| Assembler.AssembleByteCode | src/MajiroLib/Script/Assembler.cs:685-693 | the loop checks each offset, adds up the sizes and writes the encodings, with the read-mark count of the whole list |
| Assembler.ByteCodeRoundTrip | src/MajiroLib/Script/Assembler.cs:685-693 | the byte code of encodable instructions decodes back to them |
| Assembler.AssembleScript | src/MajiroLib/Script/Assembler.cs:654-683 | the script is flattened when it is a graph, and an unknown representation throws; then the file is the header and the byte code of the resulting list |
| Assembler.ScriptRoundTrip | src/MajiroLib/Script/Assembler.cs:654-693 | the disassembler reads back the header fields of a written file, and the instructions from its decrypted blob |
| ScriptWriter.EntryWords | src/MajiroLib/Script/Assembler.cs:677-678 | an index entry is its hash, then its offset |
| ScriptWriter.EntryBytes | src/MajiroLib/Script/Assembler.cs:676-679 | eight bytes per entry |
| ScriptWriter.Stored | src/MajiroLib/Script/Assembler.cs:666-667 | encryption keeps the length |
| ScriptWriter.IndexBack | src/MajiroLib/Script/Disassembler.cs:23-29 | the written index reads back |
| ScriptWriter.HeaderRoundTrip | src/MajiroLib/Script/Disassembler.cs:16-32 | the header of a written file parses back to its fields |
| ScriptWriter.WriteScript | src/MajiroLib/Script/Assembler.cs:664-682 | the header, written field by field, then the stored byte code; a missing entry point or index throws |
| ScriptWriter.StoreByteCode | src/MajiroLib/Script/Assembler.cs:665-667 | the byte code, encrypted in place when asked |
| ScriptWriter.WriteIndex | src/MajiroLib/Script/Assembler.cs:676-679 | the index loop appends EntryBytes |
| ScriptWriter.FileRoundTrip | src/MajiroLib/Script/Assembler.cs:664-682 | the header of a written file parses back as the script holds it, and the decrypted blob is the byte code |
| Tokenizer.IsPunctuation | src/MajiroLib/Script/Assembler.cs:65 | exactly the eight characters `([{,%}])` |
| Tokenizer.KeywordType | src/MajiroLib/Script/Assembler.cs:90-106 | each keyword kind is given only to the words of its list, after lower-casing |
| Tokenizer.GetType | src/MajiroLib/Script/Assembler.cs:67-107 | never the end-of-file, unknown or resource kind; an address, a label, a line number, a hash, or what the numeric tests give |
| Tokenizer.NumberType | src/MajiroLib/Script/Assembler.cs:74-79 | an int, hex or float literal, or what the word tests give |
| Tokenizer.WordType | src/MajiroLib/Script/Assembler.cs:80-106 | a string literal, punctuation, a reserved word, a keyword kind or a name |
| Tokenizer.Unmarked | src/MajiroLib/Script/Assembler.cs:68-73 | text with no leading '@', '#' or '$' and no trailing ':' goes on to the numeric tests |
| Tokenizer.NotNumber | src/MajiroLib/Script/Assembler.cs:74-79 | text that no numeric test accepts goes on to the word tests |
| Tokenizer.PunctuationType | src/MajiroLib/Script/Assembler.cs:82-83 | a punctuation character alone is punctuation |
| Tokenizer.QuotedType | src/MajiroLib/Script/Assembler.cs:80-81 | quoted text is a string literal |
| Tokenizer.KeywordKinds | src/MajiroLib/Script/Assembler.cs:90-99 | a keyword token's lower-cased text is one of the words of its kind |
| Tokenizer.AliasesUnreachable | src/MajiroLib/Script/Assembler.cs:96-99 | the aliases the parser accepts for modifiers and invert modes ("incx", "neg", ...) are never given those kinds |
| Tokenizer.NextColumn | src/MajiroLib/Script/Assembler.cs:144-154 | a newline starts column 1, a tab moves to the next tab stop of width 4, anything else moves one column |
| Tokenizer.Typed | src/MajiroLib/Script/Assembler.cs:112-122 | `FinishToken` classifies each finished text, keeping one token per text |
| Tokenizer.Step | src/MajiroLib/Script/Assembler.cs:138-217 | one character fails exactly at a '%' after pending text that does not start with '$' (the assertion), and moves row and column as the source does |
| Tokenizer.Turn | src/MajiroLib/Script/Assembler.cs:138-217 | the statement-by-statement loop body computes Step, and yields the classified tokens |
| Tokenizer.Tokenize | src/MajiroLib/Script/Assembler.cs:62-219 | the reading loop computes Tokens(input) |
| Tokenizer.Tokens | src/MajiroLib/Script/Assembler.cs:62-219 | the token stream of an input, ending in the end-of-file token, or the first error |
| Tokenizer.EndOfFileOnce | src/MajiroLib/Script/Assembler.cs:131-135 | a token stream ends with the end-of-file token and holds no other |
| Tokenizer.PunctuationAlone | src/MajiroLib/Script/Assembler.cs:197-217 | a punctuation character finishes the pending text and stands alone |
| Tokenizer.PercentAlone | src/MajiroLib/Script/Assembler.cs:185-191 | a '%' with nothing pending stands alone |
| Tokenizer.PercentInHash | src/MajiroLib/Script/Assembler.cs:192-195 | a '%' after pending text that starts with '$' is part of that name |
| Tokenizer.Comment | src/MajiroLib/Script/Assembler.cs:173-184 | a ';' comment with its newline yields nothing, and moves to the start of the next row |
| Tokenizer.QuotedString | src/MajiroLib/Script/Assembler.cs:156-180 | a quoted string met with nothing pending is one string-literal token, with its quotes and escapes as written, over any quotes, ';' or white space the escapes hide |
| Tokenizer.RunCountsRows | src/MajiroLib/Script/Assembler.cs:144-147 | the row after any input is the start row plus the number of newlines |
| Parser.Slice | src/MajiroLib/Script/Assembler.cs:273 | a range `s[a..^b]` succeeds exactly when it fits, and then holds the characters between |
| Parser.StreamNext | src/MajiroLib/Script/Assembler.cs:229-235 | in a token stream only the end-of-file token has no successor |
| Parser.TypeNamed | src/MajiroLib/Script/Assembler.cs:287-295 | a type keyword is read exactly when it is one of the tokenizer's type words, as a type code of at most 5 |
| Parser.ScopeNamed | src/MajiroLib/Script/Assembler.cs:297-305 | a scope keyword is read exactly when it is one of the tokenizer's scope words |
| Parser.ModifierNamed | src/MajiroLib/Script/Assembler.cs:307-317 | a modifier is read exactly for the tokenizer's modifier words and the four aliases the tokenizer never classifies as modifiers |
| Parser.InvertModeNamed | src/MajiroLib/Script/Assembler.cs:319-327 | an invert mode is read exactly for the tokenizer's words and the three aliases it never classifies as invert modes |
| Parser.DimensionNamed | src/MajiroLib/Script/Assembler.cs:329-334 | a dimension is read exactly for the tokenizer's dimension words, as 1 to 3 |
| Parser.KeywordsKnown | src/MajiroLib/Script/Assembler.cs:67-110 | every word the tokenizer classifies as a flag keyword is one the matching parse function accepts |
| Parser.KeywordValue | src/MajiroLib/Script/Assembler.cs:344-370 | the value a flag keyword gives fits its field of the flag word |
| Parser.SetField | src/MajiroLib/Script/Assembler.cs:344-370 | setting one of the five locals leaves the other four |
| Parser.FieldsOnceOk | src/MajiroLib/Script/Assembler.cs:343-372 | the corrected flag loop succeeds exactly when every keyword kind appears at most once and each keyword names a value |
| Parser.OnceEachStep | src/MajiroLib/Script/Assembler.cs:343-372 | the once-each condition unfolds one keyword at a time |
| Parser.FieldsOnceValues | src/MajiroLib/Script/Assembler.cs:343-372 | after the corrected loop, each field holds the value of the one keyword of its kind, or what it held before when there was none |
| Parser.IntThenFloat | src/MajiroLib/Script/Assembler.cs:343-352 | the loop as written accepts `int float` and keeps `float`, because the guard is on the value read and `int` is 0; the corrected loop reports the repeated field |
| Parser.FieldsOnceInRange | src/MajiroLib/Script/Assembler.cs:343-372 | the loop keeps every field inside the range its bits can hold |
| Parser.BuildReadsBack | src/MajiroLib/Script/Assembler.cs:372 | `FlagHelpers.Build` of in-range fields reads back field by field through the extractors |
| Parser.FlagRunEnd | src/MajiroLib/Script/Assembler.cs:343 | the loop stops at the first token that is not a flag keyword |
| Parser.FlagsRead | src/MajiroLib/Script/Assembler.cs:336-373 | `ParseFlags` succeeds exactly when no keyword kind repeats and every keyword names a value; each extractor of the result then gives the keyword of its kind, or 0 when there was none |
| Parser.AdvanceAt | src/MajiroLib/Script/Assembler.cs:229-235 | advancing fails with "No more tokens to read" exactly at the last token |
| Parser.ConsumeAt | src/MajiroLib/Script/Assembler.cs:237-243 | a token is consumed exactly when its kind is allowed (an empty list allows all) and there is a next one |
| Parser.PunctuationAt | src/MajiroLib/Script/Assembler.cs:256-261 | a punctuation is consumed exactly when it is punctuation with allowed text and there is a next token |
| Parser.TryPunctuationAt | src/MajiroLib/Script/Assembler.cs:263-268 | a non-punctuation token is left in place; punctuation is consumed, and the answer is true exactly when its text is allowed and the next token is not the end of the file |
| Parser.TypeAt | src/MajiroLib/Script/Assembler.cs:287-295 | a type is read exactly from a type token whose lower-cased text names a type |
| Parser.TypeListAt | src/MajiroLib/Script/Assembler.cs:532-548 | a type list consumes at least its opening mark |
| Parser.TypeItemsAt | src/MajiroLib/Script/Assembler.cs:536-541 | a non-empty list of types separated by commas |
| Parser.LabelsAt | src/MajiroLib/Script/Assembler.cs:485-498 | the `do … while` over labels reads at least one |
| Parser.NameHash | src/MajiroLib/Script/Assembler.cs:276-284 | a name without '@' must be a known syscall and hashes as "$" + name + the syscall suffix; a name with '@' must start with '$' and hash to a known function |
| Parser.Bv32RoundTrip | src/MajiroLib/Script/Assembler.cs:274 | a 32-bit hash survives the widening to an integer |
| Parser.HashReadsBack | src/MajiroLib/Script/Assembler.cs:272-275 | "$" and the eight hex digits of a hash read back as that hash |
| Parser.IntLiteralValue | src/MajiroLib/Script/Assembler.cs:375-383 | a decimal literal is read by `int.Parse` |
| Parser.HexLiteralValue | src/MajiroLib/Script/Assembler.cs:379 | "0x" and hex digits read as the signed 32-bit value of those digits |
| Parser.HashLiteralValue | src/MajiroLib/Script/Assembler.cs:380 | "$" and hex digits read as the signed 32-bit value of those digits |
| Parser.RelativeJump | src/MajiroLib/Script/Assembler.cs:385-396 | a relative jump label starts with '~' and has at least two characters |
| Parser.RelativeJumpForms | src/MajiroLib/Script/Assembler.cs:388-395 | "~-h" reads as minus h, "~+h" and "~h" as h |
| Parser.RelativeJumpReadsBack | src/MajiroLib/Script/Assembler.cs:385-396 | the label the disassembler writes for a 32-bit offset reads back as that offset |
| Parser.BlockLabel | src/MajiroLib/Script/Assembler.cs:469-472 | a block label drops its first character and must not start with '~' |
| Parser.OpcodeNamed | src/MajiroLib/Script/Assembler.cs:408-411 | a mnemonic names an opcode exactly when it is "phi" or in the mnemonic table; "phi" gives the phi opcode |
| Parser.KeptOutsideStep | src/MajiroLib/Script/Assembler.cs:415-509 | reading one more operand keeps every field no letter read so far writes |
| Parser.Blank | src/MajiroLib/Script/Assembler.cs:413 | a new instruction carries its opcode and block |
| Parser.LabelledRefill | src/MajiroLib/Script/Assembler.cs:398-404 | refilling a block keeps the label dictionary consistent |
| Parser.SingleAlloca | src/MajiroLib/Script/Assembler.cs:577 | `Single(IsAlloca)` succeeds exactly when one instruction is an alloca, and returns it |
| Parser.AllocaPositions | src/MajiroLib/Script/Assembler.cs:577 | the positions listed are exactly those of the allocas |
| Parser.HashAt | src/MajiroLib/Script/Assembler.cs:272-285 | a hash is read exactly from a hash token whose name resolves |
| Parser.IntLiteralAt | src/MajiroLib/Script/Assembler.cs:375-383 | an integer literal is a 32-bit signed value |
| Parser.LineNumberOf | src/MajiroLib/Script/Assembler.cs:479-481 | a line number is a 16-bit unsigned value |
| Parser.StringOperandAt | src/MajiroLib/Script/Assembler.cs:421-432 | the 's' operand writes only the string or the external key |
| Parser.VarOffsetAt | src/MajiroLib/Script/Assembler.cs:442-449 | the 'o' operand writes only the variable offset, and a non-local variable with no integer literal gets -1 without consuming a token |
| Parser.ArgumentCountAt | src/MajiroLib/Script/Assembler.cs:462-466 | the 'a' operand writes only the argument count |
| Parser.TypesOperandAt | src/MajiroLib/Script/Assembler.cs:417-419 | the 't' operand writes only the type list |
| Parser.FlagsOperandAt | src/MajiroLib/Script/Assembler.cs:434-436 | the 'f' operand writes only the flags |
| Parser.HashOperandAt | src/MajiroLib/Script/Assembler.cs:438-440 | the 'h' operand writes only the hash |
| Parser.IntOperandAt | src/MajiroLib/Script/Assembler.cs:454-456 | the 'i' operand writes only the integer value |
| Parser.FloatOperandAt | src/MajiroLib/Script/Assembler.cs:458-460 | the 'r' operand writes only the float value |
| Parser.JumpOperandAt | src/MajiroLib/Script/Assembler.cs:468-477 | outside a block the 'j' operand writes only a 32-bit jump offset |
| Parser.BlockNameAt | src/MajiroLib/Script/Assembler.cs:469-472 | a jump target inside a block is a label token |
| Parser.LineOperandAt | src/MajiroLib/Script/Assembler.cs:479-481 | the 'l' operand writes only the line number |
| Parser.SwitchOperandAt | src/MajiroLib/Script/Assembler.cs:492-499 | outside a block the 'c' operand writes only the switch offsets, each a 32-bit value |
| Parser.PhiOperandAt | src/MajiroLib/Script/Assembler.cs:503-507 | the 'p' operand reads labels and changes nothing |
| Parser.OperandAt | src/MajiroLib/Script/Assembler.cs:415-509 | one operand letter writes only its own fields |
| Parser.OperandsAt | src/MajiroLib/Script/Assembler.cs:415 | the operand loop never moves the cursor back |
| Parser.OperandsKeep | src/MajiroLib/Script/Assembler.cs:415-509 | after the operand loop, every field no letter of the encoding writes is as before |
| Parser.KeptOutsideFront | src/MajiroLib/Script/Assembler.cs:415-509 | the kept-fields property composes over the first letter and the rest |
| Parser.InstructionAt | src/MajiroLib/Script/Assembler.cs:406-512 | an instruction starts with a name token naming an opcode, and carries that opcode |
| Parser.InstructionKeeps | src/MajiroLib/Script/Assembler.cs:406-512 | an instruction read outside a block differs from a new one only in fields its encoding writes |
| Parser.OperandsStep | src/MajiroLib/Script/Assembler.cs:415 | the operand loop unfolds one letter at a time |
| Parser.TryConsumeAt | src/MajiroLib/Script/Assembler.cs:249-254 | a try-consume moves at most one token, and one exactly when it answers true |
| Parser.TryConsumeInStream | src/MajiroLib/Script/Assembler.cs:249-254 | in a stream, a try-consume never fails; it answers true exactly when the kind matches and the token after is not the end of the file |
| Parser.ReadMarkAt | src/MajiroLib/Script/Assembler.cs:586-588 | the optional read-mark header stops inside the stream |
| Parser.IndexLineAt | src/MajiroLib/Script/Assembler.cs:603-614 | an index line adds exactly one entry after those before, and keeps an entry point already set |
| Parser.IndexLineHashed | src/MajiroLib/Script/Assembler.cs:604 | an index line is its hash and then the rest |
| Parser.IndexOffsetRead | src/MajiroLib/Script/Assembler.cs:605 | the offset is the integer literal taken modulo 2^32 |
| Parser.IndexOffsetAt | src/MajiroLib/Script/Assembler.cs:605-614 | the offset step adds one entry and keeps the entries before |
| Parser.IndexEntryAt | src/MajiroLib/Script/Assembler.cs:606-613 | the entry is appended, and the entry point is either kept or, when none was set, set to this offset |
| Parser.IndexFrom | src/MajiroLib/Script/Assembler.cs:603-614 | the index loop stops inside the stream |
| Parser.AddressedLineAt | src/MajiroLib/Script/Assembler.cs:616-622 | an addressed line gives an instruction with its address as offset and its encoded size as size |
| Parser.AddressedFrom | src/MajiroLib/Script/Assembler.cs:616-622 | the instruction loop stops inside the stream |
| Parser.ListBodyAt | src/MajiroLib/Script/Assembler.cs:601-630 | the instruction-list branch keeps the read-mark setting it was given |
| Parser.AddressedStep | src/MajiroLib/Script/Assembler.cs:616-622 | the instruction loop unfolds one line at a time |
| Parser.IndexKeeps | src/MajiroLib/Script/Assembler.cs:603-614 | the index loop only appends, and never replaces an entry point once read |
| Parser.AddressedPlaced | src/MajiroLib/Script/Assembler.cs:616-622 | every instruction of the list form carries its offset and its own encoded size |
| Parser.SignatureAt | src/MajiroLib/Script/Assembler.cs:553-556 | a function head starts with the `func` keyword and reads a hash and a type list |
| Parser.BuiltParsed | src/MajiroLib/Script/Assembler.cs:550-579 | a function built by `ParseFunction` has no index range, its blocks in the arena, its jumps inside it, and the signature it was read with |
| Parser.LocalTypesAsWritten | src/MajiroLib/Script/Assembler.cs:577 | as written, the local types are read through the script's instruction list at the function's index range |
| Parser.LocalTypesAsWrittenFail | src/MajiroLib/Script/Assembler.cs:577 | that read fails for every function `ParseFunction` builds, whose index range is never set |
| Parser.Parser.constructor | src/MajiroLib/Script/Assembler.cs:222-226 | a parser over a token stream starts at its first token with no labels |
| Parser.Parser.Advance | src/MajiroLib/Script/Assembler.cs:229-235 | moves to the next token, remembering the one before, and fails with "No more tokens to read" at the end |
| Parser.Parser.Consume | src/MajiroLib/Script/Assembler.cs:237-243 | returns the current token and advances exactly as `ConsumeAt` says |
| Parser.Parser.TryConsume | src/MajiroLib/Script/Assembler.cs:249-254 | leaves a token of another kind in place; advances otherwise and answers whether the new token is not the end |
| Parser.Parser.ConsumePunctuation | src/MajiroLib/Script/Assembler.cs:256-261 | consumes exactly as `PunctuationAt` says |
| Parser.Parser.TryConsumePunctuation | src/MajiroLib/Script/Assembler.cs:263-268 | moves and answers exactly as `TryPunctuationAt` says |
| Parser.Parser.GetBlock | src/MajiroLib/Script/Assembler.cs:398-404 | a known label gives its block and changes nothing; a new one adds a block of that name at the end |
| Parser.Parser.GetBlocks | src/MajiroLib/Script/Assembler.cs:485-490 | each label gives the block the dictionary holds for it |
| Parser.Parser.ParseType | src/MajiroLib/Script/Assembler.cs:287-295 | reads exactly as `TypeAt` says |
| Parser.Parser.ParseScope | src/MajiroLib/Script/Assembler.cs:297-305 | a scope token reads as `ScopeNamed` of its lower-cased text; any other token is an unexpected token |
| Parser.Parser.ParseModifier | src/MajiroLib/Script/Assembler.cs:307-317 | the same for modifiers |
| Parser.Parser.ParseInvertMode | src/MajiroLib/Script/Assembler.cs:319-327 | the same for invert modes |
| Parser.Parser.ParseDimension | src/MajiroLib/Script/Assembler.cs:329-334 | the same for dimensions |
| Parser.Parser.ParseKeyword | src/MajiroLib/Script/Assembler.cs:344-370 | reads the value `KeywordValue` gives |
| Parser.Parser.ParseFlags | src/MajiroLib/Script/Assembler.cs:336-373 | the loop computes `FlagsAt` (see `FlagsRead`) and stops at the end of the keyword run |
| Parser.Parser.ParseIntLiteral | src/MajiroLib/Script/Assembler.cs:375-383 | reads exactly as `IntLiteralAt` says |
| Parser.Parser.ParseHash | src/MajiroLib/Script/Assembler.cs:272-285 | reads exactly as `HashAt` says |
| Parser.Parser.HashName | src/MajiroLib/Script/Assembler.cs:274-284 | resolves a name as `NameHash` says |
| Parser.Parser.ParseTypeList | src/MajiroLib/Script/Assembler.cs:532-548 | the loop reads exactly as `TypeListAt` says |
| Parser.Parser.ParseTypeItems | src/MajiroLib/Script/Assembler.cs:536-541 | the loop reads exactly as `TypeItemsAt` says |
| Parser.Parser.ParseLabels | src/MajiroLib/Script/Assembler.cs:485-506 | the `do … while` reads exactly as `LabelsAt` says |
| Parser.Parser.ParseStringOperand | src/MajiroLib/Script/Assembler.cs:421-432 | reads exactly as `StringOperandAt` says |
| Parser.Parser.ParseVarOffset | src/MajiroLib/Script/Assembler.cs:442-449 | reads exactly as `VarOffsetAt` says |
| Parser.Parser.ParseArgumentCount | src/MajiroLib/Script/Assembler.cs:462-466 | reads exactly as `ArgumentCountAt` says |
| Parser.Parser.ParseTypesOperand | src/MajiroLib/Script/Assembler.cs:417-419 | reads exactly as `TypesOperandAt` says |
| Parser.Parser.ParseFlagsOperand | src/MajiroLib/Script/Assembler.cs:434-436 | reads exactly as `FlagsOperandAt` says |
| Parser.Parser.ParseHashOperand | src/MajiroLib/Script/Assembler.cs:438-440 | reads exactly as `HashOperandAt` says |
| Parser.Parser.ParseIntOperand | src/MajiroLib/Script/Assembler.cs:454-456 | reads exactly as `IntOperandAt` says |
| Parser.Parser.ParseFloatOperand | src/MajiroLib/Script/Assembler.cs:458-460 | reads exactly as `FloatOperandAt` says |
| Parser.Parser.ParseLineOperand | src/MajiroLib/Script/Assembler.cs:479-481 | reads exactly as `LineOperandAt` says |
| Parser.Parser.ParsePhiOperand | src/MajiroLib/Script/Assembler.cs:503-507 | reads exactly as `PhiOperandAt` says |
| Parser.Parser.ParseJumpOffset | src/MajiroLib/Script/Assembler.cs:468-477 | reads exactly as `JumpOperandAt` says |
| Parser.Parser.ParseSwitchOffsets | src/MajiroLib/Script/Assembler.cs:492-499 | reads exactly as `SwitchOperandAt` says |
| Parser.Parser.ParseUnplacedOperand | src/MajiroLib/Script/Assembler.cs:415-509 | outside a block, one operand reads exactly as `OperandAt` says |
| Parser.Parser.ParseJumpTarget | src/MajiroLib/Script/Assembler.cs:468-474 | inside a block, the jump target is the block the label names, created when new |
| Parser.Parser.ParseSwitchTargets | src/MajiroLib/Script/Assembler.cs:484-491 | inside a block, the switch targets are the blocks the labels name, in order |
| Parser.Parser.ParseBlockOperand | src/MajiroLib/Script/Assembler.cs:415-509 | inside a block, one operand writes only its own fields and targets only blocks of the arena; letters other than 'j' and 'c' read as outside a block |
| Parser.Parser.ParseUnplacedOperands | src/MajiroLib/Script/Assembler.cs:415 | the operand loop outside a block reads exactly as `OperandsAt` says |
| Parser.Parser.ParseBlockOperands | src/MajiroLib/Script/Assembler.cs:415 | the operand loop inside a block keeps the opcode and block and targets only blocks of the arena |
| Parser.Parser.ParseInstructionOutside | src/MajiroLib/Script/Assembler.cs:406-512 | an instruction outside a block reads exactly as `InstructionAt` says |
| Parser.Parser.ParseInstructionIn | src/MajiroLib/Script/Assembler.cs:406-512 | an instruction inside a block carries the opcode its name token names, its block, and targets inside the arena |
| Parser.Parser.ParseBlock | src/MajiroLib/Script/Assembler.cs:514-530 | a block starts at a label token, is the block of that label without its colon, and ends before a label or "}" |
| Parser.Parser.AddInstruction | src/MajiroLib/Script/Assembler.cs:525 | appends the instruction to that block and changes no other |
| Parser.Parser.TryConsumeKind | src/MajiroLib/Script/Assembler.cs:249-254 | reads exactly as `TryConsumeAt` says |
| Parser.Parser.ParseReadMark | src/MajiroLib/Script/Assembler.cs:582-588 | reads exactly as `ReadMarkAt` says |
| Parser.Parser.ParseIndexLine | src/MajiroLib/Script/Assembler.cs:604-613 | reads exactly as `IndexLineAt` says |
| Parser.Parser.ParseIndexOffset | src/MajiroLib/Script/Assembler.cs:605-613 | reads exactly as `IndexOffsetAt` says |
| Parser.Parser.ParseIndexEntry | src/MajiroLib/Script/Assembler.cs:606-613 | reads exactly as `IndexEntryAt` says, the entry-point assertion included |
| Parser.Parser.ParseIndex | src/MajiroLib/Script/Assembler.cs:603-614 | the index loop reads exactly as `IndexFrom` says |
| Parser.Parser.ParseAddressedLine | src/MajiroLib/Script/Assembler.cs:616-622 | reads exactly as `AddressedLineAt` says |
| Parser.Parser.ParseAddressed | src/MajiroLib/Script/Assembler.cs:616-622 | the instruction loop reads exactly as `AddressedFrom` says |
| Parser.Parser.ParseListBody | src/MajiroLib/Script/Assembler.cs:601-630 | the instruction-list branch reads exactly as `ListBodyAt` says and stops at the end of the file |
| Parser.Parser.ParseBody | src/MajiroLib/Script/Assembler.cs:569-575 | a function body runs from "{" to "}" and lists blocks of the arena |
| Parser.Parser.ParseSignature | src/MajiroLib/Script/Assembler.cs:553-556 | reads exactly as `SignatureAt` says |
| Parser.Parser.ParseHead | src/MajiroLib/Script/Assembler.cs:550-567 | clears the labels, reads the signature and keeps or sets the entry point |
| Parser.Parser.ParseEntryPoint | src/MajiroLib/Script/Assembler.cs:563-567 | an `entrypoint` keyword makes the function about to be added the entry point, and fails the assertion exactly when one was already set |
| Parser.Parser.ParseFunction | src/MajiroLib/Script/Assembler.cs:550-579 | the function read is `Built`: its signature, its blocks, and the local types of its one alloca |
| Parser.Parser.ParseFunctionBody | src/MajiroLib/Script/Assembler.cs:569-578 | the body and the local types give a `Built` function |
| Parser.Parser.BuildFunction | src/MajiroLib/Script/Assembler.cs:558-561 | builds the function when its blocks hold one alloca, and fails as `Single` does otherwise |
| Parser.Parser.AddFunction | src/MajiroLib/Script/Assembler.cs:595-596 | appends the parsed function to the script's list |
| Parser.Parser.ParseFunctions | src/MajiroLib/Script/Assembler.cs:594-597 | reads functions up to the end of the file, each parsed, with the entry point among them |
| Parser.Parser.ParseScript | src/MajiroLib/Script/Assembler.cs:581-634 | the instruction-list form gives exactly what `ListScriptAt` reads; the graph form gives parsed functions; any other start is an unexpected token |
| Parser.Parser.ParseGraphBody | src/MajiroLib/Script/Assembler.cs:591-598 | the graph branch gives a script of parsed functions with the read-mark setting given |
| Parser.AppendFunction | src/MajiroLib/Script/Assembler.cs:596 | appending a parsed function keeps every function parsed |
| Parser.NewListScript | src/MajiroLib/Script/Assembler.cs:582-584 | a new script holds what the list form read |
| Parser.TargetedAppend | src/MajiroLib/Script/Assembler.cs:525 | appending an instruction whose targets are in the arena keeps every jump inside the arena |
| Parser.FailureMessage | src/MajiroLib/Script/Assembler.cs:639-641 | the message wraps the last token after "Failed to parse script. Last token: " |
| Parser.Parse | src/MajiroLib/Script/Assembler.cs:221-642 | a tokenizer error passes through; the list form succeeds exactly when `ListScriptAt` does and holds what it reads; the graph form gives parsed functions; any other start fails; every thrown message carries the failure prefix |
| Sorts.VisitPre | src/MajiroLib/Helpers.cs:68-73 | the pre-order `Visit` only adds to the visited set |
| Sorts.VisitChildrenPre | src/MajiroLib/Helpers.cs:72 | visiting the children in order only adds to the visited set |
| Sorts.RootsPre | src/MajiroLib/Helpers.cs:66 | the walk over the dictionary's keys only adds to the visited set |
| Sorts.VisitPreKeeps | src/MajiroLib/Helpers.cs:68-73 | a visit lists each node once, lists exactly the visited nodes, only appends, stops after an exception, and visits its node |
| Sorts.VisitPreSucceeds | src/MajiroLib/Helpers.cs:68-73 | when every child of a key is a key, no lookup throws |
| Sorts.PreOrderPermutes | src/MajiroLib/Helpers.cs:61-74 | the pre-order walk succeeds exactly when every child of a listed node is listed, and then is a permutation of the list |
| Sorts.PreOrderEnters | src/MajiroLib/Helpers.cs:61-74 | every node of the pre-order walk is a child of a node before it, or starts a new root after all earlier nodes' children are listed |
| Sorts.PreOrder | src/MajiroLib/Helpers.cs:61-74 | the pre-order walk of the list over the children, or the exception of a child not listed |
| Sorts.VisitPost | src/MajiroLib/Helpers.cs:83-88 | the post-order `Visit` only adds to the visited set |
| Sorts.VisitChildrenPost | src/MajiroLib/Helpers.cs:86 | visiting the children in order only adds to the visited set |
| Sorts.RootsPost | src/MajiroLib/Helpers.cs:81 | the walk over the keys only adds to the visited set |
| Sorts.VisitPostKeeps | src/MajiroLib/Helpers.cs:83-88 | a visit lists each node once, only appends, stops after an exception, and visits its node |
| Sorts.VisitPostSucceeds | src/MajiroLib/Helpers.cs:83-88 | when every child of a key is a key, no lookup throws |
| Sorts.PostOrderPermutes | src/MajiroLib/Helpers.cs:76-89 | the post-order walk succeeds exactly when every child of a listed node is listed, and then is a permutation of the list |
| Sorts.PostOrderRanks | src/MajiroLib/Helpers.cs:76-89 | on a graph without cycles (a rank that falls along every edge), every child is listed before its parent |
| Sorts.PostOrder | src/MajiroLib/Helpers.cs:76-89 | the post-order walk of the list over the children, or the exception of a child not listed |
| Sorts.TopoVisit | src/MajiroLib/Helpers.cs:43-58 | the three-state `Visit` keeps the state's keys and never makes a node alive again |
| Sorts.TopoVisitDeps | src/MajiroLib/Helpers.cs:52 | visiting the dependencies in order keeps the keys and the dead nodes |
| Sorts.TopoVisitAgrees | src/MajiroLib/Helpers.cs:43-58 | one topological visit does what a post-order visit does, with the non-alive nodes as the visited set |
| Sorts.TopoOrderIsPostOrder | src/MajiroLib/Helpers.cs:26-59 | the topological sort gives the post-order walk over the dependencies, and the same exception |
| Sorts.TopoOrder | src/MajiroLib/Helpers.cs:26-59 | the topological sort of the list over the dependencies |
| Sorts.TopoOrderSorts | src/MajiroLib/Helpers.cs:26-59 | it succeeds exactly when every dependency is listed, is then a permutation of the list, and on an acyclic graph lists every dependency first |
| Sorts.DistinctPermutation | src/MajiroLib/Helpers.cs:27 | two repeat-free lists with the same elements are permutations of each other |
| Sorts.ClosedAsKeys | src/MajiroLib/Helpers.cs:27 | every child being listed is the same as every child being a key of the dictionary |
| Sorts.NodeList.constructor | src/MajiroLib/Helpers.cs:26 | a list holding the given nodes |
| Sorts.NodeList.PreOrderSort | src/MajiroLib/Helpers.cs:61-74 | a repeated node throws before the list is cleared; otherwise the list becomes the pre-order walk, which succeeds exactly when every child is listed |
| Sorts.NodeList.VisitPreOrder | src/MajiroLib/Helpers.cs:68-73 | the recursive visit does to the list and the visited set what `VisitPre` says |
| Sorts.NodeList.PostOrderSort | src/MajiroLib/Helpers.cs:76-89 | the same for the post-order walk |
| Sorts.NodeList.VisitPostOrder | src/MajiroLib/Helpers.cs:83-88 | the recursive visit does what `VisitPost` says |
| Sorts.NodeList.TopologicalSort | src/MajiroLib/Helpers.cs:26-59 | a repeated node throws; otherwise the list becomes `TopoOrder`, which succeeds exactly when every dependency is listed and is then a permutation |
| Sorts.NodeList.WalkRoots | src/MajiroLib/Helpers.cs:40-41 | the loop over the keys builds `TopoOrder` |
| Sorts.NodeList.VisitTopological | src/MajiroLib/Helpers.cs:43-58 | the recursive visit does what `TopoVisit` says |
| Graph.RepresentationName | src/MajiroLib/Script/Analysis/ControlFlow/ControlFlowPass.cs:16 | every representation prints as a non-empty name |
| Graph.NewBlock | src/MajiroLib/Script/Analysis/ControlFlow/BasicBlock.cs:34-37 | a new block has its name, no edges, no instructions and no stack states |
| Graph.FirstInstruction | src/MajiroLib/Script/Analysis/ControlFlow/BasicBlock.cs:21 | the first instruction, and an exception exactly for an empty block |
| Graph.LastInstruction | src/MajiroLib/Script/Analysis/ControlFlow/BasicBlock.cs:22 | the last instruction, and an exception exactly for an empty block |
| Graph.StartOffset | src/MajiroLib/Script/Analysis/ControlFlow/BasicBlock.cs:30 | the offset of the first instruction, and an exception exactly for an empty block |
| Graph.IsDestructorEntryBlock | src/MajiroLib/Script/Analysis/ControlFlow/BasicBlock.cs:18-19 | false unless there is exactly one predecessor; then whether that block ends in opcode 0x847 |
| Graph.BlockSanityCheck | src/MajiroLib/Script/Analysis/ControlFlow/BasicBlock.cs:41-57 | fails in the instruction-list form; in a CFG passes exactly when the stack fields are unset, in SSA form exactly when they are set |
| Graph.NewFunction | src/MajiroLib/Script/Analysis/ControlFlow/Function.cs:12-34 | a new function has its hash and both instruction indices at -1 |
| Graph.InstructionCount | src/MajiroLib/Script/Analysis/ControlFlow/Function.cs:14-15 | the length of the index range when both ends are set, else -1 |
| Graph.FunctionInstructions | src/MajiroLib/Script/Analysis/ControlFlow/Function.cs:27-29 | succeeds exactly when the index range is inside the script, and then is that slice of the script's instructions |
| Graph.FindBlockFirst | src/MajiroLib/Script/Analysis/ControlFlow/Function.cs:37 | `Find` yields a block exactly when some block starts at the offset, and then the first one in the list |
| Graph.BasicBlockFromOffset | src/MajiroLib/Script/Analysis/ControlFlow/Function.cs:36-39 | over non-empty blocks, succeeds exactly when some block starts at the offset; the block given starts there |
| Graph.FindBlockHit | src/MajiroLib/Script/Analysis/ControlFlow/Function.cs:37 | the block `Find` returns starts at the offset |
| Graph.FunctionSanityCheck | src/MajiroLib/Script/Analysis/ControlFlow/Function.cs:41-59 | fails in the instruction-list form; passing means both type lists are set in the graph forms and every block passes its own check |
| Graph.BlocksSanityCheck | src/MajiroLib/Script/Analysis/ControlFlow/Function.cs:56-58 | passing means every block of the list passes its check |
| ControlFlow.CaseDestinations | src/MajiroLib/Script/Analysis/ControlFlow/ControlFlowPass.cs:82-89 | case k of a switch continues at its offset plus 4, plus 4 k, plus 4, plus the case's displacement, cut to 32 bits |
| ControlFlow.NextOffsets | src/MajiroLib/Script/Analysis/ControlFlow/ControlFlowPass.cs:69-94 | a return continues nowhere; a jump first at its destination, and an unconditional one only there; a switch at its cases; anything else also falls through to the instruction after it |
| ControlFlow.NextOffsetsSwitch | src/MajiroLib/Script/Analysis/ControlFlow/ControlFlowPass.cs:81-91 | a switch that is not a jump continues only at its cases |
| ControlFlow.NextOffsetsOk | src/MajiroLib/Script/Analysis/ControlFlow/ControlFlowPass.cs:69-94 | with its offset, size and displacement or cases set, an instruction's successors can always be read |
| ControlFlow.FindLastInstruction | src/MajiroLib/Script/Analysis/ControlFlow/ControlFlowPass.cs:42-51 | the last instruction of a function is the first from its start that ends the list or precedes another start; -1 exactly when the start is past the end |
| ControlFlow.IndicesFound | src/MajiroLib/Script/Analysis/ControlFlow/ControlFlowPass.cs:110-113 | an index an offset resolves to is an instruction with that offset |
| ControlFlow.MarkedFound | src/MajiroLib/Script/Analysis/ControlFlow/ControlFlowPass.cs:124-143 | every index the boundary scan marks is an instruction with an offset |
| ControlFlow.MarkBlockStarts | src/MajiroLib/Script/Analysis/ControlFlow/ControlFlowPass.cs:106-143 | the scan succeeds exactly when every successor offset is found and each type list is met at most once; the starts are then the first instruction and every marked index, each once, and the type lists are those of the first argument check and alloca |
| ControlFlow.ScanStep | src/MajiroLib/Script/Analysis/ControlFlow/ControlFlowPass.cs:125-142 | one turn of the scan extends what is established to one more instruction, or shows the scan fails |
| ControlFlow.Picked | src/MajiroLib/Script/Analysis/ControlFlow/ControlFlowPass.cs:135-142 | the first argument check or alloca sets its type list |
| ControlFlow.PickedTwice | src/MajiroLib/Script/Analysis/ControlFlow/ControlFlowPass.cs:136-140 | a second argument check or alloca fails the assertion |
| ControlFlow.ScanBranch | src/MajiroLib/Script/Analysis/ControlFlow/ControlFlowPass.cs:127-134 | a branch adds its successor offsets, and the fall-through unless it is the last instruction |
| ControlFlow.MarkOffsets | src/MajiroLib/Script/Analysis/ControlFlow/ControlFlowPass.cs:110-130 | marking a list of offsets succeeds exactly when each is found, and appends each index not yet a start, once |
| ControlFlow.MarkOne | src/MajiroLib/Script/Analysis/ControlFlow/ControlFlowPass.cs:115-120 | marking an offset appends its index unless it is already a start |
| ControlFlow.IndicesOfStep | src/MajiroLib/Script/Analysis/ControlFlow/ControlFlowPass.cs:128-130 | one more offset adds its index to those resolved so far |
| FunctionAnalysis.SortedStarts | src/MajiroLib/Script/Analysis/ControlFlow/ControlFlowPass.cs:146 | the starts in ascending order, each once |
| FunctionAnalysis.PositionOf | src/MajiroLib/Script/Analysis/ControlFlow/ControlFlowPass.cs:146-147 | the position of a start among the ordered starts |
| FunctionAnalysis.Tagged | src/MajiroLib/Script/Analysis/ControlFlow/ControlFlowPass.cs:149 | each instruction of a block is tagged with that block |
| FunctionAnalysis.FillBlocks | src/MajiroLib/Script/Analysis/ControlFlow/ControlFlowPass.cs:146-155 | block k holds, tagged, the instructions from the k-th start up to the next start or the function's end |
| FunctionAnalysis.EndFound | src/MajiroLib/Script/Analysis/ControlFlow/ControlFlowPass.cs:148-154 | the inner loop stops at the block's end |
| FunctionAnalysis.SpansTile | src/MajiroLib/Script/Analysis/ControlFlow/ControlFlowPass.cs:146-155 | the blocks' instructions, one after the other, are exactly the function's instructions |
| FunctionAnalysis.SortedByOffset | src/MajiroLib/Script/Analysis/ControlFlow/ControlFlowPass.cs:157 | when offsets ascend, the blocks are already in order of their first offsets, so the sort leaves them in start order |
| FunctionAnalysis.SortThrows | src/MajiroLib/Script/Analysis/ControlFlow/ControlFlowPass.cs:157 | sorting two or more blocks throws when one of them has no instructions |
| FunctionAnalysis.LinkBlocks | src/MajiroLib/Script/Analysis/ControlFlow/ControlFlowPass.cs:159-174 | every block gets the successor and predecessor the consecutive-link loop gives it |
| FunctionAnalysis.LinkWellLinked | src/MajiroLib/Script/Analysis/ControlFlow/ControlFlowPass.cs:159-174 | the link loop leaves the edge lists within the blocks, mirrored and without repeats |
| FunctionAnalysis.LinkShape | src/MajiroLib/Script/Analysis/ControlFlow/ControlFlowPass.cs:159-174 | a block gets at most the next block as successor and the one before as predecessor |
| FunctionAnalysis.LinkEdge | src/MajiroLib/Script/Analysis/ControlFlow/ControlFlowPass.cs:172-173 | an edge is in both lists or in neither |
| FunctionAnalysis.ReturnLinkedAsWritten | src/MajiroLib/Script/Analysis/ControlFlow/ControlFlowPass.cs:160-174 | as written, a block that ends in a return is linked to the next block, because `IsExitBlock` is only set afterwards |
| FunctionAnalysis.ReturnNotLinked | src/MajiroLib/Script/Analysis/ControlFlow/ControlFlowPass.cs:160-174 | with the exits known, the loop never gives a block that ends in a return a successor |
| FunctionAnalysis.Identity | src/MajiroLib/Script/Analysis/ControlFlow/ControlFlowPass.cs:108 | the block list is every block, in order |
| FunctionAnalysis.Lookups | src/MajiroLib/Script/Analysis/ControlFlow/ControlFlowPass.cs:201-204 | the lookups of the offsets succeed exactly when each lookup does, and give the block of each |
| FunctionAnalysis.Plan | src/MajiroLib/Script/Analysis/ControlFlow/ControlFlowPass.cs:201-209 | the targets of every block, once they can be found |
| FunctionAnalysis.AppendNew | src/MajiroLib/Script/Analysis/ControlFlow/ControlFlowPass.cs:205-208 | `Contains` before each `Add`: the new targets are appended in order, each once |
| FunctionAnalysis.LookupSame | src/MajiroLib/Script/Analysis/ControlFlow/ControlFlowPass.cs:202 | the lookups see the same blocks while the analysis changes edges and last instructions |
| FunctionAnalysis.LinkingDone | src/MajiroLib/Script/Analysis/ControlFlow/ControlFlowPass.cs:201-224 | once a block has linked to all its targets and resolved its last instruction, it is analysed |
| FunctionAnalysis.ReturnAnalysed | src/MajiroLib/Script/Analysis/ControlFlow/ControlFlowPass.cs:195-199 | a block that ends in a return becomes an exit and gains no edges |
| FunctionAnalysis.LinkTargets | src/MajiroLib/Script/Analysis/ControlFlow/ControlFlowPass.cs:201-209 | the successor loop succeeds exactly when every lookup does, and adds each new target once on both sides |
| FunctionAnalysis.ResolveLast | src/MajiroLib/Script/Analysis/ControlFlow/ControlFlowPass.cs:211-224 | a jump gets the block of its destination as target, a switch the blocks of its cases; the displacement is cleared |
| FunctionAnalysis.ResolveCases | src/MajiroLib/Script/Analysis/ControlFlow/ControlFlowPass.cs:217-222 | the case loop gives the block of each case's destination |
| FunctionAnalysis.CaseOffset | src/MajiroLib/Script/Analysis/ControlFlow/ControlFlowPass.cs:220 | the destination the resolution loop computes for case c is the one the successor loop used |
| FunctionAnalysis.AnalyzeBasicBlock | src/MajiroLib/Script/Analysis/ControlFlow/ControlFlowPass.cs:191-225 | succeeds exactly when the block's targets can be found, and then analyses it |
| FunctionAnalysis.AnalyzeBlocks | src/MajiroLib/Script/Analysis/ControlFlow/ControlFlowPass.cs:176-178 | succeeds exactly when every block's targets can be found, and then analyses every block in order |
| FunctionAnalysis.TargetsStart | src/MajiroLib/Script/Analysis/ControlFlow/ControlFlowPass.cs:201-209 | the targets of a block start at the offsets its last instruction continues at |
| FunctionAnalysis.PredecessorsFromSpec | src/MajiroLib/Script/Analysis/ControlFlow/ControlFlowPass.cs:207-208 | k becomes a predecessor of j, once, exactly when j is a target of k |
| FunctionAnalysis.AnalysedExits | src/MajiroLib/Script/Analysis/ControlFlow/ControlFlowPass.cs:195-209 | after the analysis the blocks that end in a return are exits, and every target is a successor |
| FunctionAnalysis.AnalysedWellLinked | src/MajiroLib/Script/Analysis/ControlFlow/ControlFlowPass.cs:176-178 | the analysis keeps the edge lists well formed |
| FunctionAnalysis.AnalysedEdge | src/MajiroLib/Script/Analysis/ControlFlow/ControlFlowPass.cs:207-208 | after the analysis an edge is in both lists or in neither |
| Pruning.RemoveFirst | src/MajiroLib/Script/Analysis/ControlFlow/ControlFlowPass.cs:183 | `List.Remove` drops the first occurrence, if any |
| Pruning.Live | src/MajiroLib/Script/Analysis/ControlFlow/ControlFlowPass.cs:183 | the predecessors not yet dropped, in order |
| Pruning.RemoveLive | src/MajiroLib/Script/Analysis/ControlFlow/ControlFlowPass.cs:183 | with each predecessor listed once, the removed block is gone |
| Pruning.PruneUnreachable | src/MajiroLib/Script/Analysis/ControlFlow/ControlFlowPass.cs:180-188 | the blocks dropped are exactly those left without a live predecessor, each drop clearing its successors and leaving its successors without it; they are dropped in queue order |
| Pruning.Unreachables | src/MajiroLib/Script/Analysis/ControlFlow/ControlFlowPass.cs:180 | the queue starts with the unreachable blocks, in block order |
| Pruning.DropBlock | src/MajiroLib/Script/Analysis/ControlFlow/ControlFlowPass.cs:181-188 | one turn drops the head of the queue and queues the successors it leaves unreachable |
| Pruning.PrunedLeast | src/MajiroLib/Script/Analysis/ControlFlow/ControlFlowPass.cs:180-188 | the dropped blocks are the least set closed under "left unreachable once the set is dropped" |
| Pruning.PrunedUnreachable | src/MajiroLib/Script/Analysis/ControlFlow/ControlFlowPass.cs:180-188 | after pruning a block is unreachable exactly when it was dropped, and a dropped block has no edges |
| Pruning.PrunedWellLinked | src/MajiroLib/Script/Analysis/ControlFlow/ControlFlowPass.cs:180-188 | pruning keeps the edge lists well formed |
| Pruning.PrunedUnique | src/MajiroLib/Script/Analysis/ControlFlow/ControlFlowPass.cs:180-188 | the outcome of pruning does not depend on the order: two runs drop the same blocks and leave the same blocks |
| ControlFlowPass.AnalyzeFunction | src/MajiroLib/Script/Analysis/ControlFlow/ControlFlowPass.cs:96-189 | fails exactly when the scan fails, the sort meets an empty block or a target is missing; otherwise the blocks are those of the ordered starts, in start order (see Left out), linked, analysed and pruned |
| ControlFlowPass.OrderedStarts | src/MajiroLib/Script/Analysis/ControlFlow/ControlFlowPass.cs:146 | the ordered starts of a clean scan are the function's block starts |
| ControlFlowPass.StartsUnique | src/MajiroLib/Script/Analysis/ControlFlow/ControlFlowPass.cs:124-146 | the starts, and so the analysis, are determined by the instructions |
| ControlFlowPass.IncreasingUnique | src/MajiroLib/Script/Analysis/ControlFlow/ControlFlowPass.cs:146 | two increasing lists with the same members are the same list |
| ControlFlowPass.StartBlock | src/MajiroLib/Script/Analysis/ControlFlow/ControlFlowPass.cs:100-155 | block k starts at the k-th start, is the entry exactly when that is the first instruction, and ends in a return exactly when its span does |
| ControlFlowPass.AnalyzedBlock | src/MajiroLib/Script/Analysis/ControlFlow/ControlFlowPass.cs:96-189 | every block of the result keeps its name, entry flag, instruction count and first offset |
| ControlFlowPass.AnalyzedExit | src/MajiroLib/Script/Analysis/ControlFlow/ControlFlowPass.cs:180-199 | a block of the result is an exit exactly when it ends in a return, and unreachable exactly when it was dropped |
| ControlFlowPass.AnalyzedFunction | src/MajiroLib/Script/Analysis/ControlFlow/ControlFlowPass.cs:96-189 | the result's edges are well formed, it has its hash, and its entry block starts at the function's first instruction and survives the pruning |
| ControlFlowPass.ResolveInstruction | src/MajiroLib/Script/Analysis/ControlFlow/ControlFlowPass.cs:251-273 | resolving an instruction is `Resolve` |
| ControlFlowPass.LayOut | src/MajiroLib/Script/Analysis/ControlFlow/ControlFlowPass.cs:241-248 | each instruction is placed at the running sum of the sizes before it |
| ControlFlowPass.LaidOut | src/MajiroLib/Script/Analysis/ControlFlow/ControlFlowPass.cs:242-248 | the loop gives the sizes and the placed list |
| ControlFlowPass.ResolveAll | src/MajiroLib/Script/Analysis/ControlFlow/ControlFlowPass.cs:251-273 | every jump and switch gets the displacement to its target block, or the first failure |
| ControlFlowPass.IndexFunctions | src/MajiroLib/Script/Analysis/ControlFlow/ControlFlowPass.cs:275-281 | one index entry per function, at its first instruction's offset |
| ControlFlowPass.ListResolved | src/MajiroLib/Script/Analysis/ControlFlow/ControlFlowPass.cs:238-273 | the list becomes the flattened, laid-out and resolved instructions |
| ControlFlowPass.Relisted | src/MajiroLib/Script/Analysis/ControlFlow/ControlFlowPass.cs:237-288 | the script ends as `Relist` of its functions and entry point says |
| Relisting.Relist | src/MajiroLib/Script/Analysis/ControlFlow/ControlFlowPass.cs:237-288 | the instruction list, index and entry point offset of the functions, or the first exception |
| Relisting.Body | src/MajiroLib/Script/Analysis/ControlFlow/ControlFlowPass.cs:238 | a function's instructions as intended: those of its listed blocks, in order |
| ControlFlowPass.Indexed | src/MajiroLib/Script/Analysis/ControlFlow/ControlFlowPass.cs:275-288 | the index and the entry point, once the list is resolved |
| ControlFlowPass.Entered | src/MajiroLib/Script/Analysis/ControlFlow/ControlFlowPass.cs:284-287 | the entry point offset is that of the entry function's index entry |
| ControlFlowPass.ToInstructionList | src/MajiroLib/Script/Analysis/ControlFlow/ControlFlowPass.cs:227-289 | does nothing to a list, throws from any other state than a graph, and otherwise leaves what `Relist` computes |
| Relisting.ListError | src/MajiroLib/Script/Analysis/ControlFlow/ControlFlowPass.cs:238 | a function's instructions can be listed exactly when its block list is set and names only its own blocks |
| Relisting.FlattenError | src/MajiroLib/Script/Analysis/ControlFlow/ControlFlowPass.cs:238 | the enumeration meets no error exactly when every function from the given one on can be listed |
| Relisting.FlattenAsWritten | src/MajiroLib/Script/Analysis/ControlFlow/ControlFlowPass.cs:238 | as written, flattening reads each function's index range of the script, and succeeds exactly when every range does |
| Relisting.FlattenAsWrittenFails | src/MajiroLib/Script/Analysis/ControlFlow/ControlFlowPass.cs:238 | a graph built by the parser or by `ToControlFlowGraph` has no index ranges, so flattening as written always throws |
| Relisting.Owners | src/MajiroLib/Script/Analysis/ControlFlow/ControlFlowPass.cs:238 | the function each flattened instruction comes from |
| Relisting.Collect | src/MajiroLib/Script/Analysis/ControlFlow/ControlFlowPass.cs:242-273 | a loop over steps succeeds exactly when each step does, with their values in order |
| Relisting.CollectFirstError | src/MajiroLib/Script/Analysis/ControlFlow/ControlFlowPass.cs:242-273 | a loop that stops at a step reports that step's error |
| Relisting.Sizes | src/MajiroLib/Script/Analysis/ControlFlow/ControlFlowPass.cs:243 | `GetInstructionSize` of each instruction |
| Relisting.PlacedStep | src/MajiroLib/Script/Analysis/ControlFlow/ControlFlowPass.cs:242-248 | one step of the layout loop |
| Relisting.PlacedStops | src/MajiroLib/Script/Analysis/ControlFlow/ControlFlowPass.cs:242-248 | the layout loop stops at the first size that throws |
| Relisting.Displacement | src/MajiroLib/Script/Analysis/ControlFlow/ControlFlowPass.cs:256-267 | the `checked` cast: the difference when it fits in 32 bits, an overflow otherwise |
| Relisting.Cases | src/MajiroLib/Script/Analysis/ControlFlow/ControlFlowPass.cs:261-268 | one displacement per case, each from the end of its case slot |
| Relisting.Resolutions | src/MajiroLib/Script/Analysis/ControlFlow/ControlFlowPass.cs:251-273 | the resolution of each instruction in its own function |
| Relisting.ResolveKeepsPlace | src/MajiroLib/Script/Analysis/ControlFlow/ControlFlowPass.cs:251-273 | resolution keeps where an instruction is laid out |
| Relisting.Entries | src/MajiroLib/Script/Analysis/ControlFlow/ControlFlowPass.cs:275-281 | the index entry of each function |
| Relisting.LaidOutResolved | src/MajiroLib/Script/Analysis/ControlFlow/ControlFlowPass.cs:238-273 | the whole list: flattened, placed and resolved |
| Relisting.EntryListing | src/MajiroLib/Script/Analysis/ControlFlow/ControlFlowPass.cs:284-285 | the entry point offset of the entry function, which throws when there is none |
| Relisting.RelistedIndexCount | src/MajiroLib/Script/Analysis/ControlFlow/ControlFlowPass.cs:275-281 | a successful relisting has one index entry per function |
| Relisting.FlatAt | src/MajiroLib/Script/Analysis/ControlFlow/ControlFlowPass.cs:238 | instruction j of function i sits after the instructions of the functions before it |
| Relisting.BlockStartWithin | src/MajiroLib/Script/Analysis/ControlFlow/ControlFlowPass.cs:238-255 | the first instruction of a listed block is in the flattened list |
| Relisting.RelistedSteps | src/MajiroLib/Script/Analysis/ControlFlow/ControlFlowPass.cs:237-288 | a relisting that succeeds got through each loop |
| Relisting.LandsOn | src/MajiroLib/Script/Analysis/ControlFlow/ControlFlowPass.cs:254-256 | adding the displacement back to the source offset, with 32-bit wrap, gives the target |
| Relisting.RelistedResolved | src/MajiroLib/Script/Analysis/ControlFlow/ControlFlowPass.cs:251-273 | a relisting leaves the resolved list of its functions |
| Relisting.RelistedLayout | src/MajiroLib/Script/Analysis/ControlFlow/ControlFlowPass.cs:241-248 | each instruction of a relisting sits right after the one before it, the first at 0 |
| Relisting.RelistedKept | src/MajiroLib/Script/Analysis/ControlFlow/ControlFlowPass.cs:238-273 | relisting changes only offsets, sizes, block tags and targets of each instruction |
| Relisting.ResolveJump | src/MajiroLib/Script/Analysis/ControlFlow/ControlFlowPass.cs:252-258 | a resolved jump lands where its target block starts |
| Relisting.ResolveCase | src/MajiroLib/Script/Analysis/ControlFlow/ControlFlowPass.cs:259-270 | a resolved switch case lands where its target block starts |
| Relisting.RelistedJumpLands | src/MajiroLib/Script/Analysis/ControlFlow/ControlFlowPass.cs:227-289 | every jump of the relisted script lands on the first instruction of the block it pointed to |
| Relisting.RelistedCasesLand | src/MajiroLib/Script/Analysis/ControlFlow/ControlFlowPass.cs:227-289 | every switch case of the relisted script lands on the first instruction of its block |
| Relisting.RelistedIndex | src/MajiroLib/Script/Analysis/ControlFlow/ControlFlowPass.cs:275-285 | each index entry has its function's hash and first offset, and the entry point offset is that of the entry function |
| FunctionStarts.Found | src/MajiroLib/Script/Analysis/ControlFlow/ControlFlowPass.cs:27-28 | the instruction each index entry starts at, or -1 |
| FunctionStarts.StartsAmong | src/MajiroLib/Script/Analysis/ControlFlow/ControlFlowPass.cs:26-38 | the first loop over the entries with their starts found |
| FunctionStarts.StartsUpTo | src/MajiroLib/Script/Analysis/ControlFlow/ControlFlowPass.cs:26-38 | the first loop over the entries before n |
| FunctionStarts.StartsSucceed | src/MajiroLib/Script/Analysis/ControlFlow/ControlFlowPass.cs:26-38 | the first loop succeeds exactly when each entry's offset is found and no two entries start at the same instruction |
| FunctionStarts.EntryUpTo | src/MajiroLib/Script/Analysis/ControlFlow/ControlFlowPass.cs:33-34 | the entry point function is the last entry at the entry point offset, or none |
| FunctionStarts.MarkFunctionStarts | src/MajiroLib/Script/Analysis/ControlFlow/ControlFlowPass.cs:26-38 | the loop gives the starts as `StartsUpTo` says, and the entry point function |
| FunctionStarts.FindStart | src/MajiroLib/Script/Analysis/ControlFlow/ControlFlowPass.cs:28 | the index of the entry's offset |
| FunctionStarts.StartsMissing | src/MajiroLib/Script/Analysis/ControlFlow/ControlFlowPass.cs:29 | an entry with no instruction throws "No instruction found at offset" |
| FunctionStarts.StartsRepeated | src/MajiroLib/Script/Analysis/ControlFlow/ControlFlowPass.cs:37 | a second entry at the same instruction throws the dictionary's duplicate key error |
| FunctionStarts.StartsStayFailed | src/MajiroLib/Script/Analysis/ControlFlow/ControlFlowPass.cs:26-38 | once an entry throws, the later entries are not reached |
| GraphForm.AnalyzeFunctions | src/MajiroLib/Script/Analysis/ControlFlow/ControlFlowPass.cs:41-54 | each function, in index order, ends where the next function starts or the list ends and is analysed, with its blocks in start order (see Left out); the first failure ends the loop |
| GraphForm.AppendRunKeeps | src/MajiroLib/Script/Analysis/ControlFlow/ControlFlowPass.cs:41-54 | one more function joins those analysed |
| GraphForm.Unplaced | src/MajiroLib/Script/Analysis/ControlFlow/ControlFlowPass.cs:56-59 | an instruction with its offset and size cleared |
| GraphForm.UnplacedWellLinked | src/MajiroLib/Script/Analysis/ControlFlow/ControlFlowPass.cs:56-59 | clearing offsets keeps the edges well formed |
| GraphForm.Converted | src/MajiroLib/Script/Analysis/ControlFlow/ControlFlowPass.cs:19-63 | the loops over the script's fields: the starts, the analysed functions, the entry point function |
| GraphForm.GraphedFunction | src/MajiroLib/Script/Analysis/ControlFlow/ControlFlowPass.cs:41-59 | each converted function has its index entry's hash, well-formed edges, and an entry block at its index entry's offset |
| GraphPass.ToControlFlowGraph | src/MajiroLib/Script/Analysis/ControlFlow/ControlFlowPass.cs:9-67 | does nothing to a graph, throws from any state other than a list, and otherwise leaves the functions `Converted` computes (blocks in start order, see Left out) with the list, index and entry point offset cleared and the list marked null |
| GraphPass.Install | src/MajiroLib/Script/Analysis/ControlFlow/ControlFlowPass.cs:61-65 | the converted functions are installed and the list, index and entry point offset set to null, the script now a control flow graph |
| StackStates.AddInt32 | src/MajiroLib/Script/Analysis/StackTransition/StackState.cs:30 | the C# `int` sum: the true sum when it fits, and always equal to it modulo 2^32 |
| StackStates.StackState.constructor | src/MajiroLib/Script/Analysis/StackTransition/StackState.cs:16-19 | a missing list becomes an empty one, the base is the given one and the local count is 0 |
| StackStates.StackState.StackTop | src/MajiroLib/Script/Analysis/StackTransition/StackState.cs:10 | the number of values on the stack |
| StackStates.StackState.ArgCount | src/MajiroLib/Script/Analysis/StackTransition/StackState.cs:12 | the argument count is the stack base |
| StackStates.StackState.TempCount | src/MajiroLib/Script/Analysis/StackTransition/StackState.cs:14 | arguments, locals and temporaries add up to the stack top |
| StackStates.StackState.Push | src/MajiroLib/Script/Analysis/StackTransition/StackState.cs:21 | the value goes on top and nothing else changes |
| StackStates.StackState.Pop | src/MajiroLib/Script/Analysis/StackTransition/StackState.cs:23-27 | an empty stack throws `Last()`'s error and is unchanged; otherwise the top value is returned and removed |
| StackStates.StackState.Slot | src/MajiroLib/Script/Analysis/StackTransition/StackState.cs:30-31 | the list index of a slot is the base plus the offset, in `int` arithmetic |
| StackStates.StackState.Get | src/MajiroLib/Script/Analysis/StackTransition/StackState.cs:30 | the value at that slot, or the list's range error when the slot is off the list |
| StackStates.StackState.Set | src/MajiroLib/Script/Analysis/StackTransition/StackState.cs:31 | the slot is replaced and nothing else changes, or the range error leaves the stack as it was |
| StackStates.StackState.Clone | src/MajiroLib/Script/Analysis/StackTransition/StackState.cs:34-36 | a new state with the same values, base and local count |
| StackStates.PushThenPop | src/MajiroLib/Script/Analysis/StackTransition/StackState.cs:21-27 | a push then a pop gives the pushed value back and leaves the stack as before |
| StackStates.CloneIsolated | src/MajiroLib/Script/Analysis/StackTransition/StackState.cs:34-36 | a clone copies the list: pushing onto the original leaves the clone as it was |
| StackStates.SetThenGet | src/MajiroLib/Script/Analysis/StackTransition/StackState.cs:29-32 | a slot that was written reads back as the written value; an off-stack write fails and changes nothing |
| StackTransitionPass.CharToTypeMask | src/MajiroLib/Script/Analysis/StackTransition/StackTransitionPass.cs:226-237 | exactly the ten letters of the table have a mask |
| StackTransitionPass.CharToType | src/MajiroLib/Script/Analysis/StackTransition/StackTransitionPass.cs:239-247 | exactly the seven letters of the table have a type, and each such letter's mask is its type's mask |
| StackTransitionPass.DigitValue | src/MajiroLib/Script/Analysis/StackTransition/StackTransitionPass.cs:343 | a digit's numeric value is 0..9 |
| StackTransitionPass.Masks | src/MajiroLib/Script/Analysis/StackTransition/StackTransitionPass.cs:346-349 | one mask per simple letter, the letter's own |
| StackTransitionPass.TypeMasks | src/MajiroLib/Script/Analysis/StackTransition/StackTransitionPass.cs:313 | one mask per type of the list, its `ToMask` |
| StackTransitionPass.Copies | src/MajiroLib/Script/Analysis/StackTransition/StackTransitionPass.cs:333 | `Enumerable.Repeat`: n copies of the mask |
| StackTransitionPass.ControlCodeMasks | src/MajiroLib/Script/Analysis/StackTransition/StackTransitionPass.cs:268-307 | the operand masks of each control code letter, and the throw for any other code |
| StackTransitionPass.Padded | src/MajiroLib/Script/Analysis/StackTransition/StackTransitionPass.cs:316-321 | `[*]` keeps the masks listed and adds `All` until the list is as long as the stack |
| StackTransitionPass.Repeat | src/MajiroLib/Script/Analysis/StackTransition/StackTransitionPass.cs:323-334 | a repeat group ends before the descriptor's '.' |
| StackTransitionPass.Hashed | src/MajiroLib/Script/Analysis/StackTransition/StackTransitionPass.cs:264-314 | a `#s` or `#t` group ends before the descriptor's '.' |
| StackTransitionPass.Bracket | src/MajiroLib/Script/Analysis/StackTransition/StackTransitionPass.cs:261-339 | a bracketed group ends before the descriptor's '.' |
| StackTransitionPass.MaskTurn | src/MajiroLib/Script/Analysis/StackTransition/StackTransitionPass.cs:255-353 | one turn of the operand loop either moves on before any '.' or stops just after a '.' |
| StackTransitionPass.DecodeOperandMask | src/MajiroLib/Script/Analysis/StackTransition/StackTransitionPass.cs:249-357 | the loop gives the operand masks and the index after the '.' as `OperandMask` says |
| StackTransitionPass.OperandMask | src/MajiroLib/Script/Analysis/StackTransition/StackTransitionPass.cs:249-357 | the operand masks of a transition string and where the '.' ends them |
| StackTransitionPass.MaskFromStopsAtDot | src/MajiroLib/Script/Analysis/StackTransition/StackTransitionPass.cs:254-259 | the operand loop, when it succeeds, stops at the first '.' from where it starts |
| StackTransitionPass.OperandsEndAtFirstDot | src/MajiroLib/Script/Analysis/StackTransition/StackTransitionPass.cs:254-259 | the pushes start after the descriptor's first '.', and a descriptor without '.' throws |
| StackTransitionPass.SimpleFrom | src/MajiroLib/Script/Analysis/StackTransition/StackTransitionPass.cs:346-349 | from any point of a run of simple letters, the loop reads the rest of the run up to the '.' |
| StackTransitionPass.SimpleOperands | src/MajiroLib/Script/Analysis/StackTransition/StackTransitionPass.cs:346-349 | simple letters before the '.' pop one operand per letter, with that letter's mask, in order |
| StackTransitionPass.DrainedOperands | src/MajiroLib/Script/Analysis/StackTransition/StackTransitionPass.cs:316-321 | `[*].` pops the whole stack, each operand matched by `All` |
| StackTransitionPass.RepeatedOperands | src/MajiroLib/Script/Analysis/StackTransition/StackTransitionPass.cs:323-334 | `[x#a].` pops as many x operands as the argument count, `[x#d].` as many as the dimension |
| StackTransitionPass.TypeListOperands | src/MajiroLib/Script/Analysis/StackTransition/StackTransitionPass.cs:310-314 | `[#t].` pops one operand per type of the type list, matched by its mask |
| StackTransitionPass.ControlOperands | src/MajiroLib/Script/Analysis/StackTransition/StackTransitionPass.cs:264-307 | `[#s].` pops the operands of the control code, and an unknown code throws its message |
| StackTransitionPass.PlaceholderOperands | src/MajiroLib/Script/Analysis/StackTransition/StackTransitionPass.cs:351-352 | a descriptor starting with '?' throws the unexpected character message |
| StackTransitionPass.PushAllShape | src/MajiroLib/Script/Analysis/StackTransition/StackTransitionPass.cs:387-389 | pushing a type list adds one fresh temporary per type, of that type, on the stack and in the pushed list |
| StackTransitionPass.PushTurn | src/MajiroLib/Script/Analysis/StackTransition/StackTransitionPass.cs:381-415 | a turn of the push loop never moves backwards |
| StackTransitionPass.PushResultValues | src/MajiroLib/Script/Analysis/StackTransition/StackTransitionPass.cs:359-419 | the loop leaves the pushed values and the stack as `PushResults` says |
| StackTransitionPass.PushResults | src/MajiroLib/Script/Analysis/StackTransition/StackTransitionPass.cs:359-419 | the values an instruction pushes, from its result masks, and the stack after them |
| StackTransitionPass.PushesFresh | src/MajiroLib/Script/Analysis/StackTransition/StackTransitionPass.cs:368-406 | what the pushes add to the stack is fresh temporaries of this instruction, numbered in order, or popped values pushed back |
| StackTransitionPass.LetterTypes | src/MajiroLib/Script/Analysis/StackTransition/StackTransitionPass.cs:408-411 | one type per letter |
| StackTransitionPass.TypedPushes | src/MajiroLib/Script/Analysis/StackTransition/StackTransitionPass.cs:408-411 | letters of known type after the '.' push one fresh temporary of each letter's type, in order |
| StackTransitionPass.TildeThrows | src/MajiroLib/Script/Analysis/StackTransition/StackTransitionPass.cs:413-414 | an element load's `~` push part throws the unexpected character message |
| StackTransitionPass.SimulateTransition | src/MajiroLib/Script/Analysis/StackTransition/StackTransitionPass.cs:421-444 | the loop over the operands gives the stack and the instruction as `Transition` says |
| StackTransitionPass.Transition | src/MajiroLib/Script/Analysis/StackTransition/StackTransitionPass.cs:421-444 | an instruction's transition: its operands popped and checked, its results pushed |
| StackTransitionPass.Consumes | src/MajiroLib/Script/Analysis/StackTransition/StackTransitionPass.cs:433 | an instruction consumes a value exactly when it pops it |
| StackTransitionPass.TransitionPops | src/MajiroLib/Script/Analysis/StackTransition/StackTransitionPass.cs:424-443 | a transition pops as many values as the descriptor has masks, off the top, each matching its mask, and records the popped and pushed values on an instruction that had none |
| StackTransitionPass.Present | src/MajiroLib/Script/Analysis/StackTransition/StackTransitionPass.cs:454 | the states that are set, in order, the first one first |
| StackTransitionPass.Column | src/MajiroLib/Script/Analysis/StackTransition/StackTransitionPass.cs:477 | slot i of every state |
| StackTransitionPass.KnownTypesAre | src/MajiroLib/Script/Analysis/StackTransition/StackTransitionPass.cs:482-487 | no known type, exactly one, or two different ones, among the values |
| StackTransitionPass.PhiTypeRule | src/MajiroLib/Script/Analysis/StackTransition/StackTransitionPass.cs:482-491 | a phi has a known type exactly when it is the one known type among its values |
| StackTransitionPass.CompatibleIff | src/MajiroLib/Script/Analysis/StackTransition/StackTransitionPass.cs:446-467 | the check without merging succeeds exactly when some state is set and all set states have one height |
| StackTransitionPass.MergeFromValues | src/MajiroLib/Script/Analysis/StackTransition/StackTransitionPass.cs:475-507 | the slot loop keeps the values every state agrees on and puts a phi value of the merged type and category in any other slot |
| StackTransitionPass.MergeFromPhis | src/MajiroLib/Script/Analysis/StackTransition/StackTransitionPass.cs:498-499 | the slot loop adds one phi node per disagreeing slot, in slot order |
| StackTransitionPass.MergeMeets | src/MajiroLib/Script/Analysis/StackTransition/StackTransitionPass.cs:452-507 | a merge that succeeds has all set states of the merged height: one state is taken as it is, and more are merged slot by slot |
| StackTransitionPass.MergeFromFails | src/MajiroLib/Script/Analysis/StackTransition/StackTransitionPass.cs:493-496 | the slot loop throws exactly when a disagreeing slot has values of more than one category |
| StackTransitionPass.MergeFails | src/MajiroLib/Script/Analysis/StackTransition/StackTransitionPass.cs:452-507 | a merge throws exactly when no state is set, the heights differ, or a slot has clashing categories |
| StackTransitionPass.PresentSnoc | src/MajiroLib/Script/Analysis/StackTransition/StackTransitionPass.cs:454 | the states that are set, with one more state at the end |
| StackTransitionPass.CheckStateCompatibility | src/MajiroLib/Script/Analysis/StackTransition/StackTransitionPass.cs:446-508 | merging gives `Merge`; checking alone succeeds or fails as `Compatible` says |
| StackTransitionPass.Merge | src/MajiroLib/Script/Analysis/StackTransition/StackTransitionPass.cs:446-508 | the merge of a block's incoming states: one copied, several merged slot by slot into phis |
| StackTransitionPass.EndStates | src/MajiroLib/Script/Analysis/StackTransition/StackTransitionPass.cs:194-219 | the end states of the listed blocks, in order |
| StackTransitionPass.StartStates | src/MajiroLib/Script/Analysis/StackTransition/StackTransitionPass.cs:194 | the start states of the listed blocks, in order |
| StackTransitionPass.InitStartState | src/MajiroLib/Script/Analysis/StackTransition/StackTransitionPass.cs:205-224 | no predecessor gives the empty stack, one gives its end state or throws when it is unknown, and more are merged |
| StackTransitionPass.StripAll | src/MajiroLib/Script/Analysis/StackTransition/StackTransitionPass.cs:140-144 | every instruction of the list, in order, with its before, popped and pushed values cleared and nothing else changed |
| StackTransitionPass.RunFromShape | src/MajiroLib/Script/Analysis/StackTransition/StackTransitionPass.cs:180-191 | the instruction loop keeps every instruction, with its stack values now recorded |
| StackTransitionPass.RanAsStep | src/MajiroLib/Script/Analysis/StackTransition/StackTransitionPass.cs:180-191 | one more recorded instruction extends what the loop ran |
| StackTransitionPass.StripTransition | src/MajiroLib/Script/Analysis/StackTransition/StackTransitionPass.cs:181-184 | a transition changes only the instruction's stack values, and records all of them |
| StackTransitionPass.BlockShape | src/MajiroLib/Script/Analysis/StackTransition/StackTransitionPass.cs:162-202 | simulating a block changes only that block, and only its stack states, phi nodes and stack values |
| StackTransitionPass.ShapeLinked | src/MajiroLib/Script/Analysis/StackTransition/StackTransitionPass.cs:162-202 | changing stack states keeps the edges within the arena |
| StackTransitionPass.BlocksSimulated | src/MajiroLib/Script/Analysis/StackTransition/StackTransitionPass.cs:162-202 | the block loop changes only stack states, phi nodes and stack values |
| StackTransitionPass.PermutedInArena | src/MajiroLib/Script/Analysis/StackTransition/StackTransitionPass.cs:159-160 | the pre-order lists only blocks of the arena |
| StackTransitionPass.RunInstructions | src/MajiroLib/Script/Analysis/StackTransition/StackTransitionPass.cs:180-191 | the instruction loop of a block, as `RunFrom` says |
| StackTransitionPass.SimulateBlock | src/MajiroLib/Script/Analysis/StackTransition/StackTransitionPass.cs:162-202 | a block's turn as evidently intended, as `BlockSimulated` says: the phi print that throws as written is left out (see Findings) |
| StackTransitionPass.ToSsaGraphFunction | src/MajiroLib/Script/Analysis/StackTransition/StackTransitionPass.cs:156-203 | the block loop over the pre-order, as `SsaFunction` says; each turn as intended, without the phi print (see Findings) |
| StackTransitionPass.BlockSimulated | src/MajiroLib/Script/Analysis/StackTransition/StackTransitionPass.cs:162-202 | a block's turn as intended: its start state and phi nodes, its instructions simulated, its end state, and the check against its successors' start states |
| StackTransitionPass.BlockSimulatedAsWritten | src/MajiroLib/Script/Analysis/StackTransition/StackTransitionPass.cs:173-174 | as written: a turn whose merge made a phi node throws `NullReferenceException` in the phi print; otherwise it is the intended turn |
| StackTransitionPass.PhiPrintThrows | src/MajiroLib/Script/Analysis/StackTransition/StackTransitionPass.cs:173-174 | a block whose predecessors' end states merge with a disagreeing slot gets a phi node for it, so its turn as written throws |
| StackTransitionPass.PhiMergeKept | src/MajiroLib/Script/Analysis/StackTransition/StackTransitionPass.cs:218-222 | as intended, that turn keeps the phi node for the slot, and the slot of the start state is the phi's value, of the slot's category |
| StackTransitionPass.SsaFunction | src/MajiroLib/Script/Analysis/StackTransition/StackTransitionPass.cs:156-203 | the block list exists, is indexed within the function and has no repeats; then the blocks in pre-order, each simulated in turn |
| StackTransitionPass.RunFrom | src/MajiroLib/Script/Analysis/StackTransition/StackTransitionPass.cs:180-191 | the instructions of a block from position k, each given the stack before it and simulated |
| StackTransitionPass.BlockSets | src/MajiroLib/Script/Analysis/StackTransition/StackTransitionPass.cs:165-193 | the block a turn simulates gets its start and end states, its phi nodes and every instruction's stack values |
| StackTransitionPass.BlocksStep | src/MajiroLib/Script/Analysis/StackTransition/StackTransitionPass.cs:162-202 | one turn of the block loop simulates its block and changes nothing else |
| StackTransitionPass.BlocksKeep | src/MajiroLib/Script/Analysis/StackTransition/StackTransitionPass.cs:162-202 | the block loop leaves every block it does not visit as it was |
| StackTransitionPass.BlocksSets | src/MajiroLib/Script/Analysis/StackTransition/StackTransitionPass.cs:162-202 | every block the loop visits ends in SSA form |
| StackTransitionPass.SetsCombine | src/MajiroLib/Script/Analysis/StackTransition/StackTransitionPass.cs:162-202 | the block a turn simulates stays in SSA form through the later turns |
| StackTransitionPass.SsaShape | src/MajiroLib/Script/Analysis/StackTransition/StackTransitionPass.cs:156-203 | a converted function differs only in its blocks: every listed block is in SSA form, and the others are as they were |
| StackTransitionPass.SsaSane | src/MajiroLib/Script/Analysis/StackTransition/StackTransitionPass.cs:125 | a converted function with its type lists set passes the SSA form's sanity check |
| StackTransitionPass.ShapeSymmetric | src/MajiroLib/Script/Analysis/StackTransition/StackTransitionPass.cs:162-202 | changing stack states keeps the predecessor and successor lists mirror images |
| StackTransitionPass.BlockParts | src/MajiroLib/Script/Analysis/StackTransition/StackTransitionPass.cs:165-194 | a block's turn sets the start state `InitStartState` gives, sets an end state and checks it against the successors' start states |
| StackTransitionPass.BalancedOut | src/MajiroLib/Script/Analysis/StackTransition/StackTransitionPass.cs:194 | after a block's turn, its end state has the height of each successor's known start state |
| StackTransitionPass.BalancedIn | src/MajiroLib/Script/Analysis/StackTransition/StackTransitionPass.cs:205-224 | after a block's turn, its start state has the height of each predecessor's known end state |
| StackTransitionPass.StartMeets | src/MajiroLib/Script/Analysis/StackTransition/StackTransitionPass.cs:209-221 | a start state is as high as every known end state of a predecessor |
| StackTransitionPass.BalancedStep | src/MajiroLib/Script/Analysis/StackTransition/StackTransitionPass.cs:162-202 | one turn keeps every edge between simulated blocks balanced |
| StackTransitionPass.Listed | src/MajiroLib/Script/Analysis/StackTransition/StackTransitionPass.cs:159-160 | the blocks listed from position j on |
| StackTransitionPass.BlocksBalanced | src/MajiroLib/Script/Analysis/StackTransition/StackTransitionPass.cs:162-202 | the block loop keeps every edge between simulated blocks balanced |
| StackTransitionPass.SsaBalanced | src/MajiroLib/Script/Analysis/StackTransition/StackTransitionPass.cs:156-203 | after conversion, every edge between two listed blocks joins an end state and a start state of one height |
| StackTransitionPass.ListedPermuted | src/MajiroLib/Script/Analysis/StackTransition/StackTransitionPass.cs:159-160 | two orders of the same blocks list the same set |
| StackTransitionPass.SsaClosed | src/MajiroLib/Script/Analysis/StackTransition/StackTransitionPass.cs:160 | the pre-order lists every successor of a listed block |
| StackTransitionPass.EdgesBalanced | src/MajiroLib/Script/Analysis/StackTransition/StackTransitionPass.cs:156-224 | after conversion, every edge out of a listed block leads to a listed block with a start state of the block's end height |
| StackTransitionPass.StripListed | src/MajiroLib/Script/Analysis/StackTransition/StackTransitionPass.cs:140-150 | the listed blocks lose their stack states, phi nodes and stack values, and the rest stay as they were |
| StackTransitionPass.StrippedTwice | src/MajiroLib/Script/Analysis/StackTransition/StackTransitionPass.cs:140-150 | a stripped block is in control-flow form |
| StackTransitionPass.CfgShape | src/MajiroLib/Script/Analysis/StackTransition/StackTransitionPass.cs:140-150 | stripping puts every listed block in control-flow form and changes nothing else |
| StackTransitionPass.CfgSane | src/MajiroLib/Script/Analysis/StackTransition/StackTransitionPass.cs:153 | a stripped function with its type lists set passes the control flow graph's sanity check |
| StackTransitionPass.SsaThenCfg | src/MajiroLib/Script/Analysis/StackTransition/StackTransitionPass.cs:108-154 | converting to SSA form and back gives what stripping the original gives |
| StackTransitionPass.RoundTrip | src/MajiroLib/Script/Analysis/StackTransition/StackTransitionPass.cs:108-154 | a function in control-flow form comes back from SSA form exactly as it was |
| StackTransitionPass.EachFrom | src/MajiroLib/Script/Analysis/StackTransition/StackTransitionPass.cs:120-122 | the function loop gives back one function per function |
| StackTransitionPass.EachFromMeets | src/MajiroLib/Script/Analysis/StackTransition/StackTransitionPass.cs:120-122 | the function loop converts every function in turn, or stops at the first that throws, with the earlier ones converted and the rest untouched |
| StackTransitionPass.EachFromAll | src/MajiroLib/Script/Analysis/StackTransition/StackTransitionPass.cs:120-122 | when every function converts, the loop gives exactly those results |
| StackTransitionPass.SsaScriptSane | src/MajiroLib/Script/Analysis/StackTransition/StackTransitionPass.cs:120-125 | after conversion, every function with its type lists set passes the SSA form's sanity check |
| StackTransitionPass.ScriptRoundTrip | src/MajiroLib/Script/Analysis/StackTransition/StackTransitionPass.cs:108-154 | functions in control-flow form, converted to SSA form and back, come back exactly as they were |
| StackTransitionPass.SsaFunctions | src/MajiroLib/Script/Analysis/StackTransition/StackTransitionPass.cs:120-122 | the function loop replaces the script's functions as `EachFrom` says, each function converted as intended, without the phi print (see Findings) |
| StackTransitionPass.ToSsaGraph | src/MajiroLib/Script/Analysis/StackTransition/StackTransitionPass.cs:108-126 | SSA form is left alone; a state other than a control flow graph throws its message; otherwise the functions are converted as intended (without the phi print, see Findings) and the script ends in SSA form, or in transition after a throw |
| StackTransitionPass.CfgFunctions | src/MajiroLib/Script/Analysis/StackTransition/StackTransitionPass.cs:146-150 | the block loop applies the given clearing to each function in turn, as `EachFrom` says: the intended `CfgFunction` or the as-written `CfgFunctionAsWritten`, the first exception ending it |
| StackTransitionPass.ToControlFlowGraph | src/MajiroLib/Script/Analysis/StackTransition/StackTransitionPass.cs:128-154 | a control flow graph is left alone; a state other than SSA form throws its message; otherwise the blocks' stack states and the instructions' stack values are cleared |
| StackTransitionPass.ToControlFlowGraphAsWritten | src/MajiroLib/Script/Analysis/StackTransition/StackTransitionPass.cs:128-154 | as written: a control flow graph is left alone and a state other than SSA form throws; an SSA graph goes into transition, and when its instruction list is null (a script converted from an instruction list) the first loop throws `NullReferenceException`; otherwise the list's instructions lose their stack values, the listed blocks lose their stack states and phi nodes but their instructions keep their stack values, and the script becomes a control flow graph |
| StackTransitionPass.ClearListValues | src/MajiroLib/Script/Analysis/StackTransition/StackTransitionPass.cs:140-144 | the first loop: every instruction of the script's own list loses its three stack values, and the list keeps its length and order |
| StackTransitionPass.ClearListed | src/MajiroLib/Script/Analysis/StackTransition/StackTransitionPass.cs:146-150 | as written, the blocks of the list lose their start and end states and phi nodes and keep their instructions; the other blocks stay as they were |
| StackTransitionPass.CfgFunctionAsWritten | src/MajiroLib/Script/Analysis/StackTransition/StackTransitionPass.cs:146-150 | the block loop of one function as written: a missing block list throws, a block outside the arena is out of range, and otherwise only the listed blocks' stack states and phi nodes are cleared |
| StackTransitionPass.ClearedKeepsValues | src/MajiroLib/Script/Analysis/StackTransition/StackTransitionPass.cs:146-150 | as written, every block keeps its instructions with their stack values, the listed blocks have no stack states or phi nodes, and stripping the result is stripping the original |
| StackTransitionPass.StaleBlockRejected | src/MajiroLib/Script/Analysis/StackTransition/StackTransitionPass.cs:180-181 | a block whose first instruction still has its before values fails `Debug.Assert(instruction.BeforeValues == null)` once its start state is known |
| StackTransitionPass.StaleBlocksRejected | src/MajiroLib/Script/Analysis/StackTransition/StackTransitionPass.cs:162-181 | the block loop fails when the blocks still to visit are all stale and one of them has an instruction |
| StackTransitionPass.StaleAfterRoundTrip | src/MajiroLib/Script/Analysis/StackTransition/StackTransitionPass.cs:128-154 | after conversion to SSA form and the as-written way back, the blocks stay linked and listed once each, and every listed block keeps its instructions, the first still with its before values |
| StackTransitionPass.StaleFunctionRejected | src/MajiroLib/Script/Analysis/StackTransition/StackTransitionPass.cs:156-203 | a function whose listed blocks are stale, one with an instruction, fails to convert to SSA form |
| StackTransitionPass.SecondSsaRejected | src/MajiroLib/Script/Analysis/StackTransition/StackTransitionPass.cs:128-154 | a function with an instruction that goes to SSA form, back by the as-written conversion, and to SSA form again fails the second time |
| Dump.ScopeChar | src/MajiroLib/Script/Analysis/Source/DumpVisitor.cs:16-22 | a scope has a character exactly when it is one of the four named scopes; any other value throws |
| Dump.TypeSuffix | src/MajiroLib/Script/Analysis/Source/DumpVisitor.cs:23-32 | a type has a suffix exactly when it is one of the six named types or Unknown; any other value throws |
| Dump.IdentifierText | src/MajiroLib/Script/Analysis/Source/DumpVisitor.cs:14-34 | an identifier prints without an exception exactly when its scope and type are named |
| Dump.IdentifierParts | src/MajiroLib/Script/Analysis/Source/DumpVisitor.cs:14-34 | the scope character comes first, the eight hexadecimal digits of the hash at 2..9, and the type suffix after the closing brace |
| Dump.IdentifierInjective | src/MajiroLib/Script/Analysis/Source/DumpVisitor.cs:14-34 | two identifiers that print alike have the same hash, scope and type |
| Dump.ScopeCharInjective | src/MajiroLib/Script/Analysis/Source/DumpVisitor.cs:16-22 | different scopes print different characters |
| Dump.TypeSuffixInjective | src/MajiroLib/Script/Analysis/Source/DumpVisitor.cs:23-32 | different types print different suffixes |
| Dump.LoadAffixes | src/MajiroLib/Script/Analysis/Source/DumpVisitor.cs:36-57 | a load carries its invert sign exactly when its invert mode has one, in front; a pre-modifier prints two characters before the name, a post-modifier two after it, increments as "++" and decrements as "--" |
| Dump.BinaryOperator | src/MajiroLib/Script/Analysis/Source/DumpVisitor.cs:73-96 | only the plain assignment's operation prints nothing |
| Dump.BinaryOperatorsDistinct | src/MajiroLib/Script/Analysis/Source/DumpVisitor.cs:73-96 | different operations print different operators |
| Dump.UnaryOperator | src/MajiroLib/Script/Analysis/Source/DumpVisitor.cs:130-136 | every unary operation prints one character |
| Dump.TypeName | src/MajiroLib/Script/Analysis/Source/DumpVisitor.cs:149 | the printed name of a cast's target type is never empty |
| Dump.TypeNameShape | src/MajiroLib/Script/Analysis/Source/DumpVisitor.cs:149 | a named type prints a word that does not start with a digit; any other value prints its decimal number |
| Dump.TypeNamesDistinct | src/MajiroLib/Script/Analysis/Source/DumpVisitor.cs:149 | different target types print different names |
| Dump.UnnamedTypesDistinct | src/MajiroLib/Script/Analysis/Source/DumpVisitor.cs:149 | two unnamed type values with the same decimal text are equal |
| Dump.QuotedText | src/MajiroLib/Script/Analysis/Source/DumpVisitor.cs:189-193 | a string literal prints without an exception exactly when escaping it succeeds |
| Dump.ExpressionAppends | src/MajiroLib/Script/Analysis/Source/DumpVisitor.cs:117-219 | an expression adds the same text, and stops at the same exception, whatever the writer held before |
| Dump.CallAppends | src/MajiroLib/Script/Analysis/Source/DumpVisitor.cs:195-219 | a call adds the same text whatever came before it |
| Dump.ListAppends | src/MajiroLib/Script/Analysis/Source/DumpVisitor.cs:167-170 | an operand loop adds the same text whatever came before it |
| Dump.ListStops | src/MajiroLib/Script/Analysis/Source/DumpVisitor.cs:167-170 | once an operand has thrown, the rest of the loop writes nothing |
| Dump.ListJoined | src/MajiroLib/Script/Analysis/Source/DumpVisitor.cs:167-170 | the operand loop completes exactly when every operand prints, and then writes the operands' texts joined with ", " (with one more ", " in front for the `ctrl` operands) |
| Dump.Texts | src/MajiroLib/Script/Analysis/Source/DumpVisitor.cs:167-170 | one text per operand, each the operand's own print |
| Dump.BinaryParenthesized | src/MajiroLib/Script/Analysis/Source/DumpVisitor.cs:117-127 | a binary expression always prints as "(" left " " op " " right ")" |
| Dump.StatementAfter | src/MajiroLib/Script/Analysis/Source/DumpVisitor.cs:221-336 | a statement that completes leaves the indent where it found it |
| Dump.StatementsAfter | src/MajiroLib/Script/Analysis/Source/DumpVisitor.cs:106-109 | a statement loop that completes leaves the inner indent |
| Dump.BlockAfter | src/MajiroLib/Script/Analysis/Source/DumpVisitor.cs:252-265 | a block that completes leaves the indent where it found it |
| Dump.FunctionAfter | src/MajiroLib/Script/Analysis/Source/DumpVisitor.cs:98-115 | a function that completes leaves the indent where it found it |
| Dump.LeafAppends | src/MajiroLib/Script/Analysis/Source/DumpVisitor.cs:221-336 | a statement without blocks adds the same text whatever came before it |
| Dump.StatementAppends | src/MajiroLib/Script/Analysis/Source/DumpVisitor.cs:221-336 | a statement adds the same text, and leaves the same indent, whatever came before it |
| Dump.StatementsAppends | src/MajiroLib/Script/Analysis/Source/DumpVisitor.cs:256-259 | the statement loop adds the same text whatever came before it |
| Dump.BlockAppends | src/MajiroLib/Script/Analysis/Source/DumpVisitor.cs:252-265 | a block adds the same text whatever came before it |
| Dump.StatementsStop | src/MajiroLib/Script/Analysis/Source/DumpVisitor.cs:256-259 | once a statement has thrown, the rest of the loop writes nothing |
| Dump.ElseOnlyWhenPresent | src/MajiroLib/Script/Analysis/Source/DumpVisitor.cs:291-305 | the else part is written exactly when the statement has one: after the then branch, on a new line, as "else " and the block |
| Dump.ReturnValueOnlyWhenPresent | src/MajiroLib/Script/Analysis/Source/DumpVisitor.cs:280-289 | `return` without a value prints "return;", with one "return " and the value and ";" |
| Dump.AssignmentLayout | src/MajiroLib/Script/Analysis/Source/DumpVisitor.cs:221-231 | an assignment prints the identifier, " op= ", the value and ";", so the plain assignment reads " = " |
| Dump.IdentifierUnbroken | src/MajiroLib/Script/Analysis/Source/DumpVisitor.cs:14-34 | an identifier has no line break |
| Dump.TypeNameUnbroken | src/MajiroLib/Script/Analysis/Source/DumpVisitor.cs:149 | a type name has no line break |
| Dump.ExpressionUnbroken | src/MajiroLib/Script/Analysis/Source/DumpVisitor.cs:117-219 | an expression adds no line break when the names and escaped strings have none |
| Dump.CallUnbroken | src/MajiroLib/Script/Analysis/Source/DumpVisitor.cs:195-219 | a call adds no line break |
| Dump.ListUnbroken | src/MajiroLib/Script/Analysis/Source/DumpVisitor.cs:167-170 | an operand loop adds no line break |
| Dump.LeafUnbroken | src/MajiroLib/Script/Analysis/Source/DumpVisitor.cs:221-336 | a statement without blocks stays on one line |
| Dump.StatementIndented | src/MajiroLib/Script/Analysis/Source/DumpVisitor.cs:64-67 | one statement per line: after writing a statement, every line break is followed by the indent it began at |
| Dump.StatementsIndented | src/MajiroLib/Script/Analysis/Source/DumpVisitor.cs:256-259 | the statement loop keeps every line break followed by the inner indent |
| Dump.BlockIndented | src/MajiroLib/Script/Analysis/Source/DumpVisitor.cs:252-265 | a block keeps every line break followed by the indent it began at |
| Dump.Dumper.constructor | src/MajiroLib/Script/Analysis/Source/DumpVisitor.cs:12 | no indent and nothing written |
| Dump.Dumper.Write | src/MajiroLib/Script/Analysis/Source/DumpVisitor.cs:59-62 | the text is appended to the output |
| Dump.Dumper.WriteNewline | src/MajiroLib/Script/Analysis/Source/DumpVisitor.cs:64-67 | appends a line break and then the current indent |
| Dump.Dumper.Indent | src/MajiroLib/Script/Analysis/Source/DumpVisitor.cs:69 | the indent grows by two spaces |
| Dump.Dumper.Unindent | src/MajiroLib/Script/Analysis/Source/DumpVisitor.cs:71 | the indent loses its last two characters |
| Dump.Dumper.WritePiece | src/MajiroLib/Script/Analysis/Source/DumpVisitor.cs:33 | writes an identifier or quoted string, or nothing when computing it threw |
| Dump.Dumper.VisitExpression | src/MajiroLib/Script/Analysis/Source/DumpVisitor.cs:117-219 | the output and exception are those `ExpressionAfter` gives for the expression |
| Dump.Dumper.VisitLoad | src/MajiroLib/Script/Analysis/Source/DumpVisitor.cs:155-175 | the output and exception of an identifier or array access are those `ExpressionAfter` gives |
| Dump.Dumper.VisitCall | src/MajiroLib/Script/Analysis/Source/DumpVisitor.cs:195-219 | the output and exception are those `CallAfter` gives |
| Dump.Dumper.VisitList | src/MajiroLib/Script/Analysis/Source/DumpVisitor.cs:167-170 | the output and exception are those `ListAfter` gives |
| Dump.Dumper.VisitStatement | src/MajiroLib/Script/Analysis/Source/DumpVisitor.cs:221-336 | the output, exception and indent are those `StatementAfter` gives |
| Dump.Dumper.VisitIf | src/MajiroLib/Script/Analysis/Source/DumpVisitor.cs:291-305 | the output, exception and indent are those `StatementAfter` gives for the `if` |
| Dump.Dumper.VisitLeaf | src/MajiroLib/Script/Analysis/Source/DumpVisitor.cs:267-336 | the output and exception of a statement without blocks are those `LeafAfter` gives |
| Dump.Dumper.VisitAssignment | src/MajiroLib/Script/Analysis/Source/DumpVisitor.cs:221-250 | the output and exception are those `LeafAfter` gives for the assignment |
| Dump.Dumper.VisitBlock | src/MajiroLib/Script/Analysis/Source/DumpVisitor.cs:252-265 | the output, exception and indent are those `BlockAfter` gives |
| Dump.Dumper.VisitBody | src/MajiroLib/Script/Analysis/Source/DumpVisitor.cs:254-261 | the statements at one indent deeper, then the indent back, unless a statement threw |
| Dump.Dumper.VisitFunction | src/MajiroLib/Script/Analysis/Source/DumpVisitor.cs:98-115 | the output, exception and indent are those `FunctionAfter` gives |
| Decompilation.PopArguments | src/MajiroLib/Script/Analysis/Source/DecompilerPass.cs:269-274 | succeeds exactly when the stack holds at least `count` nodes; the rest of the stack followed by the popped nodes, bottom first, is the old stack |
| Decompilation.BinaryPushed | src/MajiroLib/Script/Analysis/Source/DecompilerPass.cs:209-217 | succeeds exactly when two nodes are on the stack; the top two become the operands of one node pushed in their place |
| Decompilation.UnaryPushed | src/MajiroLib/Script/Analysis/Source/DecompilerPass.cs:219-225 | succeeds exactly when a node is on the stack; the top node becomes the operand of a unary node in its place |
| Decompilation.CastPushed | src/MajiroLib/Script/Analysis/Source/DecompilerPass.cs:227-233 | succeeds exactly when a node is on the stack; the top node becomes the operand of a cast in its place |
| Decompilation.ElementPushed | src/MajiroLib/Script/Analysis/Source/DecompilerPass.cs:457-465 | `ldelem` succeeds exactly when the dimension is positive and that many indices are on the stack; they become one array access pushed in their place |
| Decompilation.CallPushed | src/MajiroLib/Script/Analysis/Source/DecompilerPass.cs:685-694 | `call` and `syscall` succeed exactly when the argument count's nodes are on the stack; they become one call pushed in their place |
| Decompilation.PushedLeaf | src/MajiroLib/Script/Analysis/Source/DecompilerPass.cs:445-455 | a load pushes one node built from nothing on top of the whole stack |
| Decompilation.PushedBuilds | src/MajiroLib/Script/Analysis/Source/DecompilerPass.cs:281-466 | every expression case pushes one node built from the `Arity` nodes on top of the stack, in the order they were pushed; it fails exactly when there are too few, `ldelem`'s dimension is 0, or the opcode is unrecognised; `alloca`, `argcheck` and `line` leave the stack alone |
| Decompilation.AssignmentOf | src/MajiroLib/Script/Analysis/Source/DecompilerPass.cs:241-249 | succeeds exactly when one node is on the stack and the flags' type is the opcode's; that node is the value assigned |
| Decompilation.ArrayAssignmentAsWritten | src/MajiroLib/Script/Analysis/Source/DecompilerPass.cs:257-267 | as written: succeeds exactly when the dimension is positive, the dimension's indices and the value are on the stack and the type matches |
| Decompilation.ArrayAssignmentOf | src/MajiroLib/Script/Analysis/Source/DecompilerPass.cs:257-267 | as intended: the same conditions; the bottom node is the value and the nodes above it are the indices, in order |
| Decompilation.ArrayAssignmentAsWrittenShape | src/MajiroLib/Script/Analysis/Source/DecompilerPass.cs:262-263 | as written, the indices are the stack without its top node, so they begin with the assigned value |
| Decompilation.ArrayIndexLost | src/MajiroLib/Script/Analysis/Source/DecompilerPass.cs:262-263 | `stelemp.i` for `a[1] = 7`: as written the index list is [7]; as intended it is [1] |
| Decompilation.CallStatementOf | src/MajiroLib/Script/Analysis/Source/DecompilerPass.cs:688-697 | `callp` and `syscallp` succeed exactly when the stack holds exactly the arguments, which become the call's arguments in order |
| Decompilation.ReturnOf | src/MajiroLib/Script/Analysis/Source/DecompilerPass.cs:701-703 | succeeds exactly when at most one node is on the stack; the return has a value exactly when there is one, and it is that node |
| Decompilation.CtrlOf | src/MajiroLib/Script/Analysis/Source/DecompilerPass.cs:774-809 | as intended: succeeds exactly when the control code is known and the stack holds exactly its operands, which become the statement's operands |
| Decompilation.CtrlAsWrittenBare | src/MajiroLib/Script/Analysis/Source/DecompilerPass.cs:775-809 | as written, `ctrl` succeeds only for control codes without operands, on an empty stack |
| Decompilation.CtrlOperandRejected | src/MajiroLib/Script/Analysis/Source/DecompilerPass.cs:775-782 | `ctrl("s")` with its operand on the stack fails the assertion as written, and gives the statement with that operand as intended |
| Decompilation.CtrlCountsAgree | src/MajiroLib/Script/Analysis/Source/DecompilerPass.cs:777-807 | the decompiler pops as many `ctrl` operands as the stack simulator gives the control code masks, and rejects the same control codes with the same message |
| Decompilation.StartOf | src/MajiroLib/Script/Analysis/Source/DecompilerPass.cs:74-76 | a block has a start index exactly when it is not null and `BuildBlockList` recorded it, and it is that recorded index |
| Decompilation.StoreOf | src/MajiroLib/Script/Analysis/Source/DecompilerPass.cs:235-255 | as intended (see Findings): a store takes the whole stack and leaves it empty, an array store too; the `st` forms without `p` require a `pop` next and skip it |
| Decompilation.StoreAsWritten | src/MajiroLib/Script/Analysis/Source/DecompilerPass.cs:257-267 | as written: an array store keeps its value and indices on the stack |
| Decompilation.ArrayStackKept | src/MajiroLib/Script/Analysis/Source/DecompilerPass.cs:257-267 | as written an array store leaves at least two nodes, so a following assignment or return fails its assertion |
| Decompilation.PlainOf | src/MajiroLib/Script/Analysis/Source/DecompilerPass.cs:685-809 | the statements made from one instruction and the stack: calls, `ctrl`, `ret`, `text` and `proc`; the pointer does not move and the stack is either emptied or kept |
| Decompilation.StatementStack | src/MajiroLib/Script/Analysis/Source/DecompilerPass.cs:276-818 | as intended, with the array store clearing the stack (see Findings): no expression outlives its statement; after an assignment, a call statement, `ctrl`, `text` or `proc` the stack is empty, and a return leaves at most its value |
| Decompilation.StatementOfStack | src/MajiroLib/Script/Analysis/Source/DecompilerPass.cs:469-809 | the same, for each case that returns a statement |
| Decompilation.StoreLeaves | src/MajiroLib/Script/Analysis/Source/DecompilerPass.cs:241-267 | the same for the stores, as intended: the array store clears the stack as the plain one does (see Findings) |
| Decompilation.DestructorLeaves | src/MajiroLib/Script/Analysis/Source/DecompilerPass.cs:710-724 | the same, for `bsel.5` |
| Decompilation.IfLeaves | src/MajiroLib/Script/Analysis/Source/DecompilerPass.cs:728-764 | the same, for `brfalse` |
| Decompilation.PlainLeaves | src/MajiroLib/Script/Analysis/Source/DecompilerPass.cs:685-809 | the same, for the statements `PlainOf` makes |
| Decompilation.ReturnEndsBlock | src/MajiroLib/Script/Analysis/Source/DecompilerPass.cs:178-179 | a return ends its block: no statement but the last of a block is a return |
| Decompilation.IfJoins | src/MajiroLib/Script/Analysis/Source/DecompilerPass.cs:728-764 | an if takes the top node as its condition and the block that follows as its then branch; it ends where the then branch does, and has an else branch exactly when the then branch does not end at the jump target |
| Decompilation.DestructorFramed | src/MajiroLib/Script/Analysis/Source/DecompilerPass.cs:710-724 | a destructor follows `bsel.5`, a `br` and the clearing instruction; the `bsel.5` target is the clearing instruction, and the body is the block after it, which ends where the `br` jumps to |
| Decompilation.StartsFromFacts | src/MajiroLib/Script/Analysis/Source/DecompilerPass.cs:66-72 | from the k-th block on, the loop gets through exactly when the rest are listed once each and none is empty, and each then starts at its first instruction's position |
| Decompilation.FreshFromStart | src/MajiroLib/Script/Analysis/Source/DecompilerPass.cs:66-72 | from the first block, "fresh" means listed once each and not empty |
| Decompilation.StartsAtFirst | src/MajiroLib/Script/Analysis/Source/DecompilerPass.cs:66-72 | the starts are built exactly when each block is listed once and none is empty, and then each listed block starts at its first instruction's position |
| Decompilation.StartsAtPositions | src/MajiroLib/Script/Analysis/Source/DecompilerPass.cs:70 | a block starts where the blocks before it end, which is its first instruction's position in the function's instruction list |
| Decompilation.StartIndicesFirst | src/MajiroLib/Script/Analysis/Source/DecompilerPass.cs:66-72 | `BuildBlockList` gets through exactly when the blocks are listed once each and none is empty; every listed block, and no other, then has a start, the position of its first instruction |
| Decompilation.DominatorsFromOrder | src/MajiroLib/Script/Analysis/Source/DecompilerPass.cs:85-129 | the order must start with the entry block; then one idom and one dominator set per block |
| Decompilation.DecompileFunction | src/MajiroLib/Script/Analysis/Source/DecompilerPass.cs:142-150 | a decompiled function's tree is named by the function's hash |
| Decompilation.DecompileFunctionAsWritten | src/MajiroLib/Script/Analysis/Source/DecompilerPass.cs:60-64 | as written: the constructor first reads the function's index range of the script |
| Decompilation.DecompileAsWrittenFails | src/MajiroLib/Script/Analysis/Source/DecompilerPass.cs:60-64 | a function without a first instruction index, as the graph pass and the parser build it, throws as written before any block is read |
| Decompilation.ContextOf | src/MajiroLib/Script/Analysis/Source/DecompilerPass.cs:60-72 | the decompiler's context as intended: the instructions of the function's blocks, its arena and its block starts |
| Decompilation.Decompiled | src/MajiroLib/Script/Analysis/Source/DecompilerPass.cs:28-32 | one result per function, each decompiled from its blocks as intended (see Findings) |
| Decompilation.DecompiledAt | src/MajiroLib/Script/Analysis/Source/DecompilerPass.cs:28-32 | the `j`th result is that of the `j`th function, decompiled from its blocks as intended (see Findings) |
| Decompilation.DecompiledInOrder | src/MajiroLib/Script/Analysis/Source/DecompilerPass.cs:28-32 | the loop gets through exactly when every function decompiles from its blocks (as intended, see Findings); the trees are then those of the functions, in order, each named by its function's hash |
| DecompilerPass.Decompiler.constructor | src/MajiroLib/Script/Analysis/Source/DecompilerPass.cs:60-64 | as intended (see Findings): a decompiler for the function whose instruction list is that of its blocks, with an empty stack and no block starts |
| DecompilerPass.Decompiler.BuildBlockList | src/MajiroLib/Script/Analysis/Source/DecompilerPass.cs:66-72 | the block starts are those `StartsFrom` gives, or its exception |
| DecompilerPass.Decompiler.CalculateDominators | src/MajiroLib/Script/Analysis/Source/DecompilerPass.cs:79-140 | the result is `DominatorsOf`: the post-order sort, its reverse, the entry block check, the idoms and the sets |
| DecompilerPass.Decompiler.DominatorsFrom | src/MajiroLib/Script/Analysis/Source/DecompilerPass.cs:87-129 | the result is `DominatorsFromOrder` of the reverse post-order |
| DecompilerPass.Decompiler.PopArguments | src/MajiroLib/Script/Analysis/Source/DecompilerPass.cs:269-274 | returns the top nodes bottom first and leaves the rest, or fails the assertion when there are too few |
| DecompilerPass.Decompiler.ProcessBinaryExpression | src/MajiroLib/Script/Analysis/Source/DecompilerPass.cs:209-217 | the stack becomes what `BinaryPushed` gives, or the assertion fails |
| DecompilerPass.Decompiler.ProcessUnaryExpression | src/MajiroLib/Script/Analysis/Source/DecompilerPass.cs:219-225 | the stack becomes what `UnaryPushed` gives, or the assertion fails |
| DecompilerPass.Decompiler.ProcessCast | src/MajiroLib/Script/Analysis/Source/DecompilerPass.cs:227-233 | the stack becomes what `CastPushed` gives, or the assertion fails |
| DecompilerPass.Decompiler.ProcessElement | src/MajiroLib/Script/Analysis/Source/DecompilerPass.cs:457-465 | the stack becomes what `ElementPushed` gives, or an assertion fails |
| DecompilerPass.Decompiler.ProcessCall | src/MajiroLib/Script/Analysis/Source/DecompilerPass.cs:685-694 | the stack becomes what `CallPushed` gives, or the assertion fails |
| DecompilerPass.Decompiler.Push | src/MajiroLib/Script/Analysis/Source/DecompilerPass.cs:283-708 | the stack becomes what `Pushed` gives for the expression case |
| Decompilation.Pushed | src/MajiroLib/Script/Analysis/Source/DecompilerPass.cs:283-708 | the stack after an expression case: the node it builds from the top nodes, on what lies below |
| Decompilation.ActionOf | src/MajiroLib/Script/Analysis/Source/DecompilerPass.cs:281-812 | the case of `DecompileStatement`'s switch for each opcode value, the default being `Debug.Fail` |
| DecompilerPass.Decompiler.ProcessAssignmentP | src/MajiroLib/Script/Analysis/Source/DecompilerPass.cs:241-249 | returns `AssignmentOf` and leaves the stack empty |
| DecompilerPass.Decompiler.ProcessArrayAssignmentP | src/MajiroLib/Script/Analysis/Source/DecompilerPass.cs:257-267 | as intended (see Findings): returns `ArrayAssignmentOf` and leaves the stack empty |
| DecompilerPass.Decompiler.ProcessCallStatement | src/MajiroLib/Script/Analysis/Source/DecompilerPass.cs:688-697 | returns `CallStatementOf` and leaves the stack empty |
| DecompilerPass.Decompiler.ProcessCtrl | src/MajiroLib/Script/Analysis/Source/DecompilerPass.cs:774-809 | returns `CtrlOf` and leaves the stack empty |
| DecompilerPass.Decompiler.StatementCase | src/MajiroLib/Script/Analysis/Source/DecompilerPass.cs:469-809 | the statement, pointer and stack are those `StatementOf` gives |
| DecompilerPass.Decompiler.NestedCase | src/MajiroLib/Script/Analysis/Source/DecompilerPass.cs:710-764 | the same, for `bsel.5` and `brfalse` |
| DecompilerPass.Decompiler.PlainCase | src/MajiroLib/Script/Analysis/Source/DecompilerPass.cs:685-809 | the statement, pointer and stack are those `PlainOf` gives |
| DecompilerPass.Decompiler.CallCase | src/MajiroLib/Script/Analysis/Source/DecompilerPass.cs:688-697 | the same, for `callp` and `syscallp` |
| DecompilerPass.Decompiler.CtrlCase | src/MajiroLib/Script/Analysis/Source/DecompilerPass.cs:774-809 | the same, for `ctrl` |
| DecompilerPass.Decompiler.StoreCase | src/MajiroLib/Script/Analysis/Source/DecompilerPass.cs:469-681 | the statement, pointer and stack are those `StoreOf` gives, the array store as intended (see Findings) |
| DecompilerPass.Decompiler.DestructorCase | src/MajiroLib/Script/Analysis/Source/DecompilerPass.cs:710-724 | the statement, pointer and stack are those `DestructorAt` gives |
| Decompilation.DestructorAt | src/MajiroLib/Script/Analysis/Source/DecompilerPass.cs:710-724 | the destructor statement: a `br` over its body and the clear instruction must follow, and the body ends at the `br`'s target |
| DecompilerPass.Decompiler.IfCase | src/MajiroLib/Script/Analysis/Source/DecompilerPass.cs:728-764 | the statement, pointer and stack are those `IfAt` gives |
| Decompilation.IfAt | src/MajiroLib/Script/Analysis/Source/DecompilerPass.cs:728-764 | the if statement: the top node is the condition, the then branch follows, the else branch is at the jump target unless the then branch ends there |
| DecompilerPass.Decompiler.DecompileStatement | src/MajiroLib/Script/Analysis/Source/DecompilerPass.cs:276-818 | the statement, pointer and stack are those `StatementFrom` gives |
| Decompilation.StatementFrom | src/MajiroLib/Script/Analysis/Source/DecompilerPass.cs:276-818 | the expression cases build nodes on the stack until a case returns a statement |
| DecompilerPass.Decompiler.StatementTurn | src/MajiroLib/Script/Analysis/Source/DecompilerPass.cs:279-814 | one turn of the loop: either the statement `StatementFrom` gives, or the stack after the expression and the rest of the loop unchanged |
| DecompilerPass.Decompiler.DecompileBlock | src/MajiroLib/Script/Analysis/Source/DecompilerPass.cs:152-183 | the statements, pointer and stack are those `BlockFrom` gives |
| Decompilation.BlockFrom | src/MajiroLib/Script/Analysis/Source/DecompilerPass.cs:152-183 | the statements of a block from ip: `line` skipped, a `br` ends it at its target, a merge point ends it |
| DecompilerPass.Decompiler.Decompile | src/MajiroLib/Script/Analysis/Source/DecompilerPass.cs:142-150 | the result is `DecompileFunction` of the function, which reads its blocks as intended (see Findings) |
| DecompilerPass.DecompileOne | src/MajiroLib/Script/Analysis/Source/DecompilerPass.cs:29 | the result is the function's entry of `Decompiled`, decompiled from its blocks as intended (see Findings) |
| DecompilerPass.DecompileFunctions | src/MajiroLib/Script/Analysis/Source/DecompilerPass.cs:28-32 | the result is `DecompileAll`: the trees in order, or the first exception; each function read from its blocks as intended (see Findings) |
| DecompilerPass.ToSource | src/MajiroLib/Script/Analysis/Source/DecompilerPass.cs:15-36 | a syntax tree is left alone; a state other than an SSA graph throws with the state's name; an SSA graph goes into transition, and becomes a syntax tree once every function is decompiled (the dump is left out, see Left out) |
| Dominators.PositionOf | src/MajiroLib/Script/Analysis/Source/DecompilerPass.cs:98 | `rpo.IndexOf`: -1 exactly when the block is not listed, otherwise its first position |
| Dominators.IntersectMeets | src/MajiroLib/Script/Analysis/Source/DecompilerPass.cs:131-139 | what `Intersect` returns is a common ancestor: both positions climb to it along the idom links |
| Dominators.IntersectBelow | src/MajiroLib/Script/Analysis/Source/DecompilerPass.cs:131-139 | on ordered idoms, two known positions meet without error, at a known position no later than either |
| Dominators.FirstKnown | src/MajiroLib/Script/Analysis/Source/DecompilerPass.cs:98 | the first predecessor with an idom is at a position whose idom is known |
| Dominators.FirstKnownFound | src/MajiroLib/Script/Analysis/Source/DecompilerPass.cs:98 | when some listed predecessor has an idom, the search finds one |
| Dominators.RefineBelow | src/MajiroLib/Script/Analysis/Source/DecompilerPass.cs:100-105 | on ordered idoms the predecessor loop goes through, and its result is known and no later than its start or any known predecessor |
| Dominators.MeetBelow | src/MajiroLib/Script/Analysis/Source/DecompilerPass.cs:96-105 | when every earlier block has an idom, the block at bi gets a known idom before it |
| Dominators.Pass | src/MajiroLib/Script/Analysis/Source/DecompilerPass.cs:96-111 | a sweep keeps one idom per block |
| Dominators.PassStep | src/MajiroLib/Script/Analysis/Source/DecompilerPass.cs:96-111 | one step of a sweep: a failing block fails it, otherwise its new idom is stored and a change is recorded exactly when it differs |
| Dominators.PassUnchanged | src/MajiroLib/Script/Analysis/Source/DecompilerPass.cs:107-110 | a sweep that changed nothing left every idom where it was, and each equals what its block computes |
| Dominators.PassChanges | src/MajiroLib/Script/Analysis/Source/DecompilerPass.cs:107-110 | once a sweep has changed something, it reports a change |
| Dominators.PassKeepsEntry | src/MajiroLib/Script/Analysis/Source/DecompilerPass.cs:95-96 | a sweep from position 1 never touches the entry's idom |
| Dominators.PassSettles | src/MajiroLib/Script/Analysis/Source/DecompilerPass.cs:96-111 | on ordered idoms, a sweep goes through and leaves every block after the entry with a known idom before it |
| Dominators.SetKeepsOrdered | src/MajiroLib/Script/Analysis/Source/DecompilerPass.cs:107-108 | setting a block's idom to a known earlier position keeps the idoms ordered |
| Dominators.Rounds | src/MajiroLib/Script/Analysis/Source/DecompilerPass.cs:91-112 | the loop keeps one idom per block |
| Dominators.RoundsFixpoint | src/MajiroLib/Script/Analysis/Source/DecompilerPass.cs:91-112 | the loop stops at a fixed point: the entry keeps itself, and recomputing any other block's idom gives the result again |
| Dominators.RoundsSettle | src/MajiroLib/Script/Analysis/Source/DecompilerPass.cs:91-112 | on ordered idoms, the loop only ever runs out of fuel, never throws, and settles every block |
| Dominators.Initial | src/MajiroLib/Script/Analysis/Source/DecompilerPass.cs:87-89 | every idom is -1 but the entry's, which is 0 |
| Dominators.Idoms | src/MajiroLib/Script/Analysis/Source/DecompilerPass.cs:87-112 | one idom per block |
| Dominators.IdomsFixpoint | src/MajiroLib/Script/Analysis/Source/DecompilerPass.cs:87-112 | the result is a fixed point, with the entry as its own immediate dominator |
| Dominators.IdomsSettled | src/MajiroLib/Script/Analysis/Source/DecompilerPass.cs:87-112 | on a reverse post-order whose blocks all have an earlier predecessor, the loop never throws, and every block after the entry gets an immediate dominator before it |
| Dominators.SetsFrom | src/MajiroLib/Script/Analysis/Source/DecompilerPass.cs:119-129 | the sets so far are kept and one set per block is built |
| Dominators.DominatorSets | src/MajiroLib/Script/Analysis/Source/DecompilerPass.cs:115-129 | one dominator set per block |
| Dominators.SetsFromSettled | src/MajiroLib/Script/Analysis/Source/DecompilerPass.cs:119-129 | with settled idoms, every set is built and holds the entry and its own block |
| Dominators.EntryDominatesAll | src/MajiroLib/Script/Analysis/Source/DecompilerPass.cs:115-129 | with settled idoms, every set is built, the entry dominates every block, and every block dominates itself |
| Dominators.SetsFromLinks | src/MajiroLib/Script/Analysis/Source/DecompilerPass.cs:119-129 | each set is exactly its idom's set with the block added |
| Dominators.IntersectIn | src/MajiroLib/Script/Analysis/Source/DecompilerPass.cs:131-139 | the nested climbing loops give what `Intersect` gives |
| Dominators.MeetIn | src/MajiroLib/Script/Analysis/Source/DecompilerPass.cs:97-105 | the loop body up to the comparison gives what `Meet` gives on the current array |
| Dominators.ComputeIdoms | src/MajiroLib/Script/Analysis/Source/DecompilerPass.cs:87-112 | the array the loops leave is `Idoms` |
| Dominators.PopulateSets | src/MajiroLib/Script/Analysis/Source/DecompilerPass.cs:115-129 | the sets the last loop builds are `DominatorSets` |
| LegacyGraphs.OldInstructionCount | src/MajiroLib/Script/Analysis/Function.cs:12-13 | the count spans first..last inclusive once both indices are set, and is -1 while either is unset |
| LegacyGraphs.OldInstructions | src/MajiroLib/Script/Analysis/Function.cs:21-23 | the range can be read exactly when both indices are set and it lies within the script; it is then the script's instructions first..last, in order |
| LegacyGraphs.FindFrom | src/MajiroLib/Script/Analysis/Function.cs:31 | the first block from k on whose first instruction has the offset, or none when no block has it; it never fails when every block's first index is an instruction |
| LegacyGraphs.BasicBlockFromOffset | src/MajiroLib/Script/Analysis/Function.cs:30-32 | reading the block list before it is set throws; otherwise a block is found exactly when some block begins at the offset, and it is the first such block |
| LegacyGraphs.SizeRelativeCases | src/MajiroLib/Script/Analysis/ControlFlowGraph.cs:57-61 | one destination per case: the instruction's offset plus its size plus the case, truncated to 32 bits |
| LegacyGraphs.EarliestNext | src/MajiroLib/Script/Analysis/ControlFlowGraph.cs:48-62 | the earliest rule always lists the next instruction first; a jump adds its destination, a switch its cases, counted from the instruction's end |
| LegacyGraphs.EarliestConditionalJump | src/MajiroLib/Script/Analysis/ControlFlowGraph.cs:48-55 | for a conditional jump the earliest rule gives the same two offsets as the current rule, in the other order |
| LegacyGraphs.EarliestJumpFallsThrough | src/MajiroLib/Script/Analysis/ControlFlowGraph.cs:50 | for an unconditional jump the earliest rule also lists the next instruction, which the current rule does not |
| LegacyGraphs.EarliestReturnFallsThrough | src/MajiroLib/Script/Analysis/ControlFlowGraph.cs:50 | for a return the earliest rule still lists the next instruction, and the current rule lists nothing |
| LegacyGraphs.SizeRelativeLastCase | src/MajiroLib/Script/Analysis/ControlFlow/ControlFlowGraph.cs:184-185 | counted from the instruction's end, the last case lands where the case-relative rule puts it |
| LegacyGraphs.SizeRelativeEarlierCase | src/MajiroLib/Script/Analysis/ControlFlow/ControlFlowGraph.cs:184-185 | every earlier case lands elsewhere than the case-relative rule puts it |
| LegacyGraphs.Low32Shift | src/MajiroLib/Script/Analysis/ControlFlow/ControlFlowGraph.cs:184-185 | a shift by less than 2^32 changes a 32-bit truncated offset |
| LegacyGraphs.MarkBasicBlockStarts | src/MajiroLib/Script/Analysis/ControlFlow/ControlFlowGraph.cs:90-100 | the loop over one branch's offsets gives what `Mark` gives |
| LegacyGraphs.ScanFunction | src/MajiroLib/Script/Analysis/ControlFlow/ControlFlowGraph.cs:102-117 | the boundary loop over the function gives what `ScanFrom` gives from the first instruction |
| LegacyGraphs.ScanInstruction | src/MajiroLib/Script/Analysis/ControlFlow/ControlFlowGraph.cs:104-116 | one turn of that loop gives what `ScanAt` gives |
| LegacyGraphs.MarkOk | src/MajiroLib/Script/Analysis/ControlFlow/ControlFlowGraph.cs:90-100 | marking gets through exactly when every offset is an instruction's, and otherwise throws "Unable to determine jump target" |
| LegacyGraphs.MarkKeeps | src/MajiroLib/Script/Analysis/ControlFlow/ControlFlowGraph.cs:90-100 | marking keeps the scan's facts, only appends new block starts, and only adds to the start set |
| LegacyGraphs.MarkCovers | src/MajiroLib/Script/Analysis/ControlFlow/ControlFlowGraph.cs:90-100 | after marking, every offset's index is in the start set |
| LegacyGraphs.MarkGrows | src/MajiroLib/Script/Analysis/ControlFlow/ControlFlowGraph.cs:95 | marking only adds to the start set |
| LegacyGraphs.MarkOrigin | src/MajiroLib/Script/Analysis/ControlFlow/ControlFlowGraph.cs:95-99 | every new block starts at one of the offsets' indices |
| LegacyGraphs.MarkTypes | src/MajiroLib/Script/Analysis/ControlFlow/ControlFlowGraph.cs:90-100 | marking leaves the parameter types alone |
| LegacyGraphs.MarkNoLateBlock | src/MajiroLib/Script/Analysis/ControlFlow/ControlFlowGraph.cs:95 | an index already in the start set without a block gets no block from marking |
| LegacyGraphs.ScanAtKeeps | src/MajiroLib/Script/Analysis/ControlFlow/ControlFlowGraph.cs:104-116 | one step keeps the scan's facts and only appends block starts |
| LegacyGraphs.ScanAtOk | src/MajiroLib/Script/Analysis/ControlFlow/ControlFlowGraph.cs:104-116 | one step gets through exactly when its successor offsets resolve and, in the second builder, no second argument check is met; an argument check sets the parameter types |
| LegacyGraphs.ScanAtCovers | src/MajiroLib/Script/Analysis/ControlFlow/ControlFlowGraph.cs:104-116 | after a step every successor of a branch is in the start set, new blocks start only at them, and the parameter types are those of an argument check |
| LegacyGraphs.ScanFromOk | src/MajiroLib/Script/Analysis/ControlFlow/ControlFlowGraph.cs:102-117 | the scan gets through exactly when every step can be taken and, in the second builder, there is at most one argument check |
| LegacyGraphs.ClearsFails | src/MajiroLib/Script/Analysis/ControlFlow/ControlFlowGraph.cs:102-117 | a step that cannot be taken makes the whole scan fail |
| LegacyGraphs.ClearsStep | src/MajiroLib/Script/Analysis/ControlFlow/ControlFlowGraph.cs:102-117 | the conditions for the scan from i are those of step i and of the scan from i + 1 |
| LegacyGraphs.StepsOkSplit | src/MajiroLib/Script/Analysis/ControlFlow/ControlFlowGraph.cs:102-117 | every step from i can be taken exactly when step i and every later one can |
| LegacyGraphs.NoArgCheckSplit | src/MajiroLib/Script/Analysis/ControlFlow/ControlFlowGraph.cs:113 | no argument check from i on exactly when none at i and none after |
| LegacyGraphs.OneArgCheckSplit | src/MajiroLib/Script/Analysis/ControlFlow/ControlFlowGraph.cs:113-114 | at most one argument check from i on exactly when at most one after i, and none after one at i |
| LegacyGraphs.ScanFromKeeps | src/MajiroLib/Script/Analysis/ControlFlow/ControlFlowGraph.cs:102-117 | the scan keeps its facts, only appends block starts, covers every branch's successors, and starts blocks only at them |
| LegacyGraphs.CoveredGrows | src/MajiroLib/Script/Analysis/ControlFlow/ControlFlowGraph.cs:102-117 | a covered branch stays covered as the start set grows |
| LegacyGraphs.ScanFromTypes | src/MajiroLib/Script/Analysis/ControlFlowGraph.cs:99-101 | the parameter types are those of the last argument check, or unchanged when there is none |
| LegacyGraphs.NoLateBlock | src/MajiroLib/Script/Analysis/ControlFlow/ControlFlowGraph.cs:95 | an index already in the start set without a block never gets one later in the scan |
| LegacyGraphs.ScanFromSplit | src/MajiroLib/Script/Analysis/ControlFlow/ControlFlowGraph.cs:103 | the scan over [i, last) is the scan over [i, j) followed by the scan over [j, last) |
| LegacyGraphs.SecondFollowerWithoutBlock | src/MajiroLib/Script/Analysis/ControlFlow/ControlFlowGraph.cs:110-111 | the second builder adds the instruction after a branch to the start set without a block; when no branch up to it targets it, it never gets a block |
| LegacyGraphs.SecondFollowerUpTo | src/MajiroLib/Script/Analysis/ControlFlow/ControlFlowGraph.cs:110-111 | right after the branch, its follower is in the start set without a block |
| LegacyGraphs.EndOf | src/MajiroLib/Script/Analysis/ControlFlow/ControlFlowGraph.cs:121-130 | a block's end is -1 exactly when it starts after the function; otherwise it is the first index from its start that is the function's last or is followed by a start |
| LegacyGraphs.EndOfUnique | src/MajiroLib/Script/Analysis/ControlFlow/ControlFlowGraph.cs:121-126 | any index with those properties is the end `EndOf` picks |
| LegacyGraphs.SortedBlocks | src/MajiroLib/Script/Analysis/ControlFlow/ControlFlowGraph.cs:133 | one block per start, in the given order, each ending within the function |
| LegacyGraphs.SortedShape | src/MajiroLib/Script/Analysis/ControlFlow/ControlFlowGraph.cs:133-134 | the sorted blocks have increasing first indices, each ends within the function, and the entry block is the one at the function's first index |
| LegacyGraphs.Claim | src/MajiroLib/Script/Analysis/ControlFlow/ControlFlowGraph.cs:122 | every index lo..hi refers to the block, and every other index keeps what it had |
| LegacyGraphs.AddEdge | src/MajiroLib/Script/Analysis/ControlFlow/ControlFlowGraph.cs:147-148 | one successor is appended to the block, and no other block's successors or any block's range or flags change |
| LegacyGraphs.LinkFrom | src/MajiroLib/Script/Analysis/ControlFlow/ControlFlowGraph.cs:137-149 | linking consecutive blocks keeps every block's range and flags |
| LegacyGraphs.LinkConsecutive | src/MajiroLib/Script/Analysis/ControlFlow/ControlFlowGraph.cs:137-149 | the loop gives what `LinkFrom` gives from the first block |
| LegacyGraphs.LinkTargets | src/MajiroLib/Script/Analysis/ControlFlow/ControlFlowGraph.cs:169-175 | one block per input block |
| LegacyGraphs.LinkTargetsRanges | src/MajiroLib/Script/Analysis/ControlFlow/ControlFlowGraph.cs:169-175 | linking the successors keeps every block's range |
| LegacyGraphs.LinkTargetsOk | src/MajiroLib/Script/Analysis/ControlFlow/ControlFlowGraph.cs:169-175 | the successor loop gets through exactly when every offset is some block's start, and fails with the same error otherwise |
| LegacyGraphs.LinkTargetsEdges | src/MajiroLib/Script/Analysis/ControlFlow/ControlFlowGraph.cs:169-175 | block k gains the offsets' blocks as successors, in order, and no other block's successors change |
| LegacyGraphs.LinkBlockTargets | src/MajiroLib/Script/Analysis/ControlFlow/ControlFlowGraph.cs:169-175 | the loop gives what `LinkTargets` gives |
| LegacyGraphs.Targets | src/MajiroLib/Script/Analysis/ControlFlow/ControlFlowGraph.cs:169-175 | one block per offset, the first that begins there; an offset that is no block's start is "Invalid jump target" |
| LegacyGraphs.FindFromSame | src/MajiroLib/Script/Analysis/Function.cs:31 | the search depends only on where the blocks begin |
| LegacyGraphs.TargetsSame | src/MajiroLib/Script/Analysis/ControlFlow/ControlFlowGraph.cs:169-175 | the targets depend only on where the blocks begin |
| LegacyGraphs.CaseTargets | src/MajiroLib/Script/Analysis/ControlFlow/ControlFlowGraph.cs:182-187 | one entry per case, each the block at the case's destination or none |
| LegacyGraphs.ResolveCaseTargets | src/MajiroLib/Script/Analysis/ControlFlow/ControlFlowGraph.cs:182-187 | the loop gives what `CaseTargets` gives |
| LegacyGraphs.AnalyzeStepShape | src/MajiroLib/Script/Analysis/ControlFlow/ControlFlowGraph.cs:156-189 | analysing a block keeps every block's range |
| LegacyGraphs.AnalyzeStepExitList | src/MajiroLib/Script/Analysis/ControlFlow/ControlFlowGraph.cs:163-166 | analysing block k appends k to the exits exactly when it ends in a return |
| LegacyGraphs.AnalyzeStepFlags | src/MajiroLib/Script/Analysis/ControlFlow/ControlFlowGraph.cs:163-166 | analysing block k keeps the entry flags and sets k's exit flag exactly when it ends in a return |
| LegacyGraphs.AnalyzeStepSuccessors | src/MajiroLib/Script/Analysis/ControlFlow/ControlFlowGraph.cs:163-175 | analysing block k adds to k alone the successors `StepTargets` names |
| LegacyGraphs.StepTargetsSame | src/MajiroLib/Script/Analysis/ControlFlow/ControlFlowGraph.cs:169-175 | a block's targets depend only on where the blocks begin and end |
| LegacyGraphs.AnalyzeBasicBlock | src/MajiroLib/Script/Analysis/ControlFlow/ControlFlowGraph.cs:156-189 | the result is `AnalyzeStep` |
| LegacyGraphs.AnalyzeFromStep | src/MajiroLib/Script/Analysis/ControlFlow/ControlFlowGraph.cs:151-153 | one turn of the loop over the blocks is one `AnalyzeStep` |
| LegacyGraphs.AnalyzeFromRanges | src/MajiroLib/Script/Analysis/ControlFlow/ControlFlowGraph.cs:151-153 | the loop over the blocks keeps every block's range |
| LegacyGraphs.AnalyzeFromExitList | src/MajiroLib/Script/Analysis/ControlFlow/ControlFlowGraph.cs:151-153 | the loop appends, in order, the blocks from k on that end in a return to the exits |
| LegacyGraphs.ExitListStep | src/MajiroLib/Script/Analysis/ControlFlow/ControlFlowGraph.cs:151-153 | the exits from k are block k's contribution followed by those from k + 1 |
| LegacyGraphs.AnalyzeFromFlags | src/MajiroLib/Script/Analysis/ControlFlow/ControlFlowGraph.cs:151-153 | the loop keeps the entry flags, and each block from k on is an exit exactly when it was or it ends in a return |
| LegacyGraphs.FlagsStep | src/MajiroLib/Script/Analysis/ControlFlow/ControlFlowGraph.cs:151-153 | the flags from k are block k's own analysis and the rest from k + 1 |
| LegacyGraphs.AnalyzeFromSuccessors | src/MajiroLib/Script/Analysis/ControlFlow/ControlFlowGraph.cs:151-153 | each block from k on gains the successors `StepTargets` names, and no other block any |
| LegacyGraphs.AnalyzeBlocks | src/MajiroLib/Script/Analysis/ControlFlow/ControlFlowGraph.cs:151-153 | the loop gives what `AnalyzeFrom` gives from the first block |
| LegacyGraphs.ReturnsFrom | src/MajiroLib/Script/Analysis/ControlFlow/ControlFlowGraph.cs:163-166 | the blocks from k on that end in a return |
| LegacyGraphs.ReturnsFromHas | src/MajiroLib/Script/Analysis/ControlFlow/ControlFlowGraph.cs:163-166 | the list holds exactly the blocks from k on that end in a return, in increasing order |
| LegacyGraphs.ReturnsFromMembers | src/MajiroLib/Script/Analysis/ControlFlow/ControlFlowGraph.cs:163-166 | a block is listed exactly when it is from k on and ends in a return |
| LegacyGraphs.ReturnsFromOrdered | src/MajiroLib/Script/Analysis/ControlFlow/ControlFlowGraph.cs:163-166 | the list is strictly increasing |
| LegacyGraphs.ReturnsFromStep | src/MajiroLib/Script/Analysis/ControlFlow/ControlFlowGraph.cs:163-166 | the list from k is k, when it ends in a return, followed by the list from k + 1 |
| LegacyGraphs.ReturnsFromSame | src/MajiroLib/Script/Analysis/ControlFlow/ControlFlowGraph.cs:163-166 | the list depends only on where the blocks begin and end |
| LegacyGraphs.ScanKept | src/MajiroLib/Script/Analysis/ControlFlow/ControlFlowGraph.cs:87-117 | the scan from the function's first instruction keeps its facts and begins its block list with that instruction |
| LegacyGraphs.Prepared | src/MajiroLib/Script/Analysis/ControlFlow/ControlFlowGraph.cs:119-134 | every prepared block ends within the script |
| LegacyGraphs.PreparedKeys | src/MajiroLib/Script/Analysis/ControlFlow/ControlFlowGraph.cs:119-133 | the block starts are distinct, the sorted starts are those starts, and every block finds its end |
| LegacyGraphs.PreparedShape | src/MajiroLib/Script/Analysis/ControlFlow/ControlFlowGraph.cs:119-149 | before their analysis the blocks are those of the sort, none is an exit, and in the earliest builder none has an edge |
| LegacyGraphs.RangesWithin | src/MajiroLib/Script/Analysis/ControlFlow/ControlFlowGraph.cs:119-134 | blocks over the same ranges as blocks that end in the script end in it too |
| LegacyGraphs.AnalyzedParts | src/MajiroLib/Script/Analysis/ControlFlow/ControlFlowGraph.cs:76-154 | a successful analysis is a scan that got through, sorted blocks, and a block loop that got through |
| LegacyGraphs.AnalyzedBlocks | src/MajiroLib/Script/Analysis/ControlFlow/ControlFlowGraph.cs:76-154 | an analysed function has its name, its index range, one block per start in increasing order, each ending within the function, and the one entry block at its first instruction |
| LegacyGraphs.RecordShape | src/MajiroLib/Script/Analysis/ControlFlow/ControlFlowGraph.cs:84-134 | the record of blocks that keep the sorted ranges and entry flags has that shape |
| LegacyGraphs.BlocksFromStart | src/MajiroLib/Script/Analysis/ControlFlow/ControlFlowGraph.cs:151-153 | the analysis keeps the blocks' ranges and entry flags |
| LegacyGraphs.ExitsFromStart | src/MajiroLib/Script/Analysis/ControlFlow/ControlFlowGraph.cs:151-166 | the exits are the blocks that end in a return, in order, and exactly those are marked as exits |
| LegacyGraphs.AnalyzedExits | src/MajiroLib/Script/Analysis/ControlFlow/ControlFlowGraph.cs:163-166 | an analysed function's exits are its blocks that end in a return, in order, and exactly those are marked as exits |
| LegacyGraphs.EarliestBlockSuccessors | src/MajiroLib/Script/Analysis/ControlFlowGraph.cs:120-144 | in the earliest builder every block's successors are exactly those `StepTargets` names |
| LegacyGraphs.SuccessorsFromNone | src/MajiroLib/Script/Analysis/ControlFlowGraph.cs:120-144 | blocks without successors that gain those `StepTargets` names have exactly those |
| LegacyGraphs.EarliestSuccessors | src/MajiroLib/Script/Analysis/ControlFlowGraph.cs:64-158 | in the earliest builder, a block's successors are exactly its last instruction's targets, and a block that ends in a return has none |
| LegacyGraphs.FindBlockEnds | src/MajiroLib/Script/Analysis/ControlFlow/ControlFlowGraph.cs:119-131 | the loop gets through exactly when every block finds its end, throws "Unable to find last instruction" otherwise, and in the second builder writes each instruction's block |
| LegacyGraphs.FindBlockEnd | src/MajiroLib/Script/Analysis/ControlFlow/ControlFlowGraph.cs:121-130 | a block finds its end exactly when it starts within the function; the second builder writes its reference over its instructions |
| LegacyGraphs.ClaimBlock | src/MajiroLib/Script/Analysis/ControlFlow/ControlFlowGraph.cs:122 | the loop's writes are `Claim` |
| LegacyGraphs.AnalyzeFunction | src/MajiroLib/Script/Analysis/ControlFlow/ControlFlowGraph.cs:76-154 | the result is `Analyzed` |
| LegacyGraphs.LegacyStarts | src/MajiroLib/Script/Analysis/ControlFlow/ControlFlowGraph.cs:17-27 | one start per index entry, each the index of the instruction at the entry's offset |
| LegacyGraphs.LegacyStartsStuck | src/MajiroLib/Script/Analysis/ControlFlow/ControlFlowGraph.cs:21 | the first entry with no instruction stops the loop with "No instruction found at offset" and its offset |
| LegacyGraphs.LegacyStartsKeepsError | src/MajiroLib/Script/Analysis/ControlFlow/ControlFlowGraph.cs:21 | once the loop has thrown, later entries keep that exception |
| LegacyGraphs.LegacyStartsFails | src/MajiroLib/Script/Analysis/ControlFlow/ControlFlowGraph.cs:21 | an entry with no instruction after good ones throws with its offset |
| LegacyGraphs.MarkFunctionStarts | src/MajiroLib/Script/Analysis/ControlFlow/ControlFlowGraph.cs:17-27 | the loop gives what `LegacyStarts` gives |
| LegacyGraphs.FindFunctionEnds | src/MajiroLib/Script/Analysis/ControlFlow/ControlFlowGraph.cs:29-40 | each function runs to the last instruction before the next function's start, or to the script's end |
| LegacyGraphs.AnalyzeAll | src/MajiroLib/Script/Analysis/ControlFlow/ControlFlowGraph.cs:42-44 | one record per function from f on |
| LegacyGraphs.AnalyzeAllStep | src/MajiroLib/Script/Analysis/ControlFlow/ControlFlowGraph.cs:42-44 | one turn of the function loop appends the function's record and goes on with its writes |
| LegacyGraphs.AnalyzeAllFails | src/MajiroLib/Script/Analysis/ControlFlow/ControlFlowGraph.cs:42-44 | a function whose analysis throws ends the loop with that exception |
| LegacyGraphs.AfterNothing | src/MajiroLib/Script/Analysis/ControlFlow/ControlFlowGraph.cs:42-44 | nothing in front leaves the result alone |
| LegacyGraphs.AfterJoin | src/MajiroLib/Script/Analysis/ControlFlow/ControlFlowGraph.cs:42-44 | putting records in front one at a time is putting them in front together |
| LegacyGraphs.AnalyzeFunctions | src/MajiroLib/Script/Analysis/ControlFlow/ControlFlowGraph.cs:42-44 | the loop gives what `AnalyzeAll` gives from the first function |
| LegacyGraphs.BuildFromScript | src/MajiroLib/Script/Analysis/ControlFlow/ControlFlowGraph.cs:13-47 | the result is `LegacyBuild` of the instructions and the function index |
| LegacyFindings.LoopShape | src/MajiroLib/Script/Analysis/ControlFlow/ControlFlowGraph.cs:76-78 | the loop example (jmp +2, body, condition, brtrue -10, ret) is a well-formed old-format script whose instructions sit at offsets 0, 6, 8, 10 and 16 |
| LegacyFindings.LoopJumpNext | src/MajiroLib/Script/Analysis/ControlFlow/ControlFlowGraph.cs:73 | the only next offset of the leading jmp is its target 8 |
| LegacyFindings.LoopBranchNext | src/MajiroLib/Script/Analysis/ControlFlow/ControlFlowGraph.cs:73 | the next offsets of the backward brtrue are its target 6 and the following offset 16 |
| LegacyFindings.LoopMarkJump | src/MajiroLib/Script/Analysis/ControlFlow/ControlFlowGraph.cs:90-100 | marking offset 8 adds index 2 both to the start indices and to the block starts |
| LegacyFindings.LoopStepJump | src/MajiroLib/Script/Analysis/ControlFlow/ControlFlowGraph.cs:106-112 | after the jmp the block starts are 0 and 2, while the start indices also hold 1, the index after the jmp |
| LegacyFindings.LoopMarkBody | src/MajiroLib/Script/Analysis/ControlFlow/ControlFlowGraph.cs:95 | marking the body's offset 6 adds no block, because index 1 is already among the start indices |
| LegacyFindings.LoopMarkExit | src/MajiroLib/Script/Analysis/ControlFlow/ControlFlowGraph.cs:90-100 | marking offset 16 adds index 4 as a new block start |
| LegacyFindings.LoopMarkBranch | src/MajiroLib/Script/Analysis/ControlFlow/ControlFlowGraph.cs:107-109 | marking both next offsets of the brtrue leaves the block starts 0, 2 and 4 |
| LegacyFindings.LoopStepBranch | src/MajiroLib/Script/Analysis/ControlFlow/ControlFlowGraph.cs:106-112 | the scan of the brtrue yields block starts 0, 2, 4, with 1 only among the start indices |
| LegacyFindings.LoopScanned | src/MajiroLib/Script/Analysis/ControlFlow/ControlFlowGraph.cs:103-117 | the whole boundary scan of the loop yields blocks at indices 0, 2 and 4 only |
| LegacyFindings.LoopKeys | src/MajiroLib/Script/Analysis/ControlFlow/ControlFlowGraph.cs:133 | sorting the block starts 0, 2, 4 leaves them unchanged |
| LegacyFindings.LoopEnds | src/MajiroLib/Script/Analysis/ControlFlow/ControlFlowGraph.cs:120-127 | the blocks end at indices 0, 3 and 4, since index 1 ends the entry block |
| LegacyFindings.LoopSorted | src/MajiroLib/Script/Analysis/ControlFlow/ControlFlowGraph.cs:119-134 | the sorted blocks of the loop are [0..0], [2..3] and [4..4] |
| LegacyFindings.LoopPrepared | src/MajiroLib/Script/Analysis/ControlFlow/ControlFlowGraph.cs:80-134 | preparing the function yields exactly those three blocks |
| LegacyFindings.LoopJumpTarget | src/MajiroLib/Script/Analysis/ControlFlow/ControlFlowGraph.cs:170 | the jmp's target offset 8 belongs to block 1 |
| LegacyFindings.LoopWithin | src/MajiroLib/Script/Analysis/ControlFlow/ControlFlowGraph.cs:120-131 | every block's first and last index lies inside the loop's instructions |
| LegacyFindings.LoopFirstLinked | src/MajiroLib/Script/Analysis/ControlFlow/ControlFlowGraph.cs:169-175 | linking the entry block to offset 8 adds the edge from block 0 to block 1 |
| LegacyFindings.LoopFirstLookup | src/MajiroLib/Script/Analysis/ControlFlow/ControlFlowGraph.cs:179 | the jmp's recorded target is block 1 |
| LegacyFindings.LoopFirstBlock | src/MajiroLib/Script/Analysis/ControlFlow/ControlFlowGraph.cs:156-189 | analysing the entry block succeeds and adds only the edge to block 1 |
| LegacyFindings.LoopBodyUnmarked | src/MajiroLib/Script/Analysis/ControlFlow/ControlFlowGraph.cs:170 | no block starts at the body's offset 6 |
| LegacyFindings.LoopSecondBlock | src/MajiroLib/Script/Analysis/ControlFlow/ControlFlowGraph.cs:169-172 | analysing the block that ends in the brtrue throws "Invalid jump target" |
| LegacyFindings.LoopAnalysisFails | src/MajiroLib/Script/Analysis/ControlFlow/ControlFlowGraph.cs:151-153 | analysing the blocks in order throws "Invalid jump target" |
| LegacyFindings.LoopRejected | src/MajiroLib/Script/Analysis/ControlFlow/ControlFlowGraph.cs:76-175 | the second builder rejects the loop with "Invalid jump target", because line 111 adds the index after a branch to the start indices without making a block there |
| Crc.MaskRoundIsRound32 | src/MajiroLib/Script/Crc.cs:19 | the branching round (shift, then xor with the polynomial when the low bit was set) equals the branch-free masked form |
| Crc.EightRounds64 | src/MajiroLib/Script/Crc.cs:29-31 | eight 64-bit rounds equal the unrolled 64-bit table entry |
| Crc.TablesAreEntries | src/MajiroLib/Script/Crc.cs:8-12 | entry b of both tables is the table function at b |
| Crc.CalcOfByte | src/MajiroLib/Script/Crc.cs:8-22 | Calculate32 of each seed 0..255 is that seed's table entry |
| Crc.FirstIndexOf | src/MajiroLib/Script/Crc.cs:37-40 | the search returns the first index at or after the start that holds the value, or nothing when none does |
| Crc.FirstIndexOfIs | src/MajiroLib/Script/Crc.cs:37-40 | an index holding the value with no earlier occurrence is the one the search finds |
| Crc.TopByteInjective | src/MajiroLib/Script/Crc.cs:9-38 | distinct seeds have distinct most significant bytes, so the top-byte map is a permutation |
| Crc.HighsMissElsewhere | src/MajiroLib/Script/Crc.cs:38 | only one seed has a given most significant byte |
| Crc.IndexEntryOfByte | src/MajiroLib/Script/Crc.cs:9 | `Crc32Index[i]` is the seed whose entry has top byte i |
| Crc.KeyBytes32 | src/MajiroLib/Script/Crc.cs:10 | the 32-bit key has four bytes per table word |
| Crc.KeyBytes64 | src/MajiroLib/Script/Crc.cs:13 | the 64-bit key has eight bytes per table word |
| Crc.KeyBytesLayout32 | src/MajiroLib/Script/Crc.cs:10 | byte 4i + j of the key is byte j of word i, least significant first |
| Crc.KeyBytesLayout64 | src/MajiroLib/Script/Crc.cs:13 | byte 8i + j of the key is byte j of word i, least significant first |
| Crc.Xored | src/MajiroLib/Script/Crc.cs:45-52 | xoring with the wrapping keystream keeps the length |
| Crc.XorKeystream | src/MajiroLib/Script/Crc.cs:45-52 | the array becomes its old bytes xored with the key from keyOffset on, wrapping at the key length |
| Crc.XoredTwice | src/MajiroLib/Script/Crc.cs:44-54 | xoring twice with the same keystream restores the bytes |
| Crc.XoredWraps | src/MajiroLib/Script/Crc.cs:46-52 | for 1024- and 2048-byte keys, offsets one key length apart give the same keystream |
| Crc.NotInvolutive | src/MajiroLib/Script/Crc.cs:59-63 | complementing twice restores a 32-bit or 64-bit register |
| Crc.FoldConcat | src/MajiroLib/Script/Crc.cs:60-62 | feeding a + b continues from the register after feeding a |
| Crc.ComplementedChains | src/MajiroLib/Script/Crc.cs:58-64 | with an involutive complement, hashing a + b continues from the hash of a |
| Crc.ComplementedFold | src/MajiroLib/Script/Crc.cs:58-64 | the loop of the hash methods computes the complemented fold of the bytes |
| Crc.ComplementedFoldAt | src/MajiroLib/Script/Crc.cs:65-71 | the loop of the At methods succeeds exactly when the slice is inside the array, and then is the complemented fold of the slice |
| Crc.Reverse | src/MajiroLib/Script/Crc.cs:77 | reversing keeps the length |
| Crc.ReverseReverse | src/MajiroLib/Script/Crc.cs:77 | reversing twice restores the bytes |
| Crc.FoldUndoesFoldBack | src/MajiroLib/Script/Crc.cs:58-82 | feeding the bytes after rewinding through them in reverse order gives the register back |
| Crc.FoldBackUndoesFold | src/MajiroLib/Script/Crc.cs:58-82 | rewinding through the bytes in reverse order after feeding them gives the register back |
| Codec.ReadUInt16Written | src/MajiroLib/Script/Disassembler.cs:54 | a 16-bit read where a 16-bit write put its bytes sees the value and moves two bytes on |
| Codec.ReadUnsignedWritten | src/MajiroLib/Script/Disassembler.cs:54-66 | an n-byte little-endian read where n bytes were written sees their value |
| Codec.Int32sRoundTrip | src/MajiroLib/Script/Disassembler.cs:129-132 | reading back the written case offsets, four bytes each, gives them back |
| Codec.FlagsRoundTrip | src/MajiroLib/Script/Disassembler.cs:81-84 | the 'f' operand reads back the written flags and consumes two bytes |
| Codec.HashRoundTrip | src/MajiroLib/Script/Disassembler.cs:86-89 | the 'h' operand reads back the written hash and consumes four bytes |
| Codec.FloatRoundTrip | src/MajiroLib/Script/Disassembler.cs:106-109 | the 'r' operand reads back the written float bits and consumes four bytes |
| Codec.VarOffsetRoundTrip | src/MajiroLib/Script/Disassembler.cs:91-94 | the 'o' operand reads back the written signed offset and consumes two bytes |
| Codec.PlaceholderRoundTrip | src/MajiroLib/Script/Disassembler.cs:96-99 | the '0' operand consumes a written zero placeholder and changes nothing |
| Codec.IntRoundTrip | src/MajiroLib/Script/Disassembler.cs:101-104 | the 'i' operand reads back the written integer and consumes four bytes |
| Codec.JumpRoundTrip | src/MajiroLib/Script/Disassembler.cs:116-119 | the 'j' operand reads back the written jump offset and consumes four bytes |
| Codec.ArgumentCountRoundTrip | src/MajiroLib/Script/Disassembler.cs:111-114 | the 'a' operand reads back the written argument count and consumes two bytes |
| Codec.LineNumberRoundTrip | src/MajiroLib/Script/Disassembler.cs:121-124 | the 'l' operand reads back the written line number and consumes two bytes |
| Codec.TypeListReadsBack | src/MajiroLib/Script/Disassembler.cs:64-71 | the type list the assembler wrote reads back into the new instruction |
| Codec.StringReadsBack | src/MajiroLib/Script/Disassembler.cs:73-79 | the string the assembler wrote reads back into the new instruction |
| Codec.SwitchReadsBack | src/MajiroLib/Script/Disassembler.cs:126-133 | the case table the assembler wrote reads back into the new instruction |
| Codec.FlagsReadsBack | src/MajiroLib/Script/Disassembler.cs:81-84 | the flags the assembler wrote read back into the new instruction |
| Codec.OperandsRoundTrip | src/MajiroLib/Script/Disassembler.cs:62-138 | the operand loop from any letter on reads back what the assembler's loop wrote, ending right after it |
| Codec.OperandsReadBack | src/MajiroLib/Script/Disassembler.cs:62-138 | the same, stated for operand bytes found at a position of a larger blob |
| Codec.EncodeParts | src/MajiroLib/Script/Assembler.cs:695-774 | an encoding is the opcode value followed by the operand encodings |
| Codec.Decoded | src/MajiroLib/Script/Disassembler.cs:59-140 | the decoded instruction has the opcode, the offset and the size it was read with |
| Codec.DecodedAt | src/MajiroLib/Script/Disassembler.cs:53-143 | with the opcode known and the operands reading back, decoding returns the decoded instruction and the next position |
| Codec.OperandsDecoded | src/MajiroLib/Script/Disassembler.cs:53-143 | decoding where the opcode value and then the operand bytes lie returns the instruction with those operands |
| Codec.EncodingAt | src/MajiroLib/Script/Assembler.cs:695-774 | a written encoding is the opcode value followed by the operand bytes |
| Codec.InstructionAt | src/MajiroLib/Script/Disassembler.cs:53-143 | decoding where the encoding of an instruction was written gives its operands back, with its offset and size |
| FunctionAnalysis.FillNewBlock | src/MajiroLib/Script/Analysis/ControlFlow/ControlFlowPass.cs:146-155 | one turn of the block loop makes the block named for its start, flagged when it is the entry, holding its span |
| FunctionAnalysis.FillBlock | src/MajiroLib/Script/Analysis/ControlFlow/ControlFlowPass.cs:149-154 | the inner loop takes, tagged with the block, the instructions from the block's start up to the function's end or the next start |
| Relisting.IndexOf | src/MajiroLib/Script/Analysis/ControlFlow/ControlFlowPass.cs:238 | the first position holding a block, which is before any other occurrence |
| Relisting.Placed | src/MajiroLib/Script/Analysis/ControlFlow/ControlFlowPass.cs:242-248 | the layout gives every instruction its offset and size, and keeps the list's length |
| Relisting.ListedPlaced | src/MajiroLib/Script/Analysis/ControlFlow/ControlFlowPass.cs:238-248 | the list as the layout loop leaves it: as long as the flattened list, every instruction placed and owned by its function |
| Relisting.ResolvedPlaced | src/MajiroLib/Script/Analysis/ControlFlow/ControlFlowPass.cs:251-273 | resolving keeps every instruction's offset and size |
| Relisting.LayoutOf | src/MajiroLib/Script/Analysis/ControlFlow/ControlFlowPass.cs:242-248 | every laid-out instruction has an offset and a size, its size is its instruction size, the first sits at 0 and each follows the one before |
| Relisting.JumpLandsAt | src/MajiroLib/Script/Analysis/ControlFlow/ControlFlowPass.cs:252-258 | the jump at any position of the resolved list lands where its target block starts |
| Relisting.CaseLandsAt | src/MajiroLib/Script/Analysis/ControlFlow/ControlFlowPass.cs:259-270 | every case of the switch at any position of the resolved list lands where its target block starts |
| Sorts.NodeList.Reverse | src/MajiroLib/Script/Analysis/Source/DecompilerPass.cs:84 | `List.Reverse` leaves the list back to front |
| Sorts.Reversed | src/MajiroLib/Script/Analysis/Source/DecompilerPass.cs:84 | the reversed list has the same length, and its k-th item is the k-th from the end |
| Sorts.MarkOne | src/MajiroLib/Helpers.cs:43-58 | marking a pending node removes it from the pending set and adds it to the marked set |
| Numerals.TrimStartShape | src/MajiroLib/Script/Assembler.cs:74 | trimming the front drops exactly the leading number white space |
| Numerals.TrimEndShape | src/MajiroLib/Script/Assembler.cs:74 | trimming the end drops exactly the trailing number white space |
| Numerals.HexDigitValue | src/MajiroLib/Script/Assembler.cs:76 | a hexadecimal digit is worth less than 16, and less than 10 exactly when it is a decimal digit |
| Numerals.ParseDecimal | src/MajiroLib/Script/Assembler.cs:74 | a decimal numeral that parses lies in the given range |
| Numerals.TryParseInt32 | src/MajiroLib/Script/Assembler.cs:74 | `int.TryParse` accepts the decimal numerals in the signed 32-bit range |
| Numerals.ParseInt16 | src/MajiroLib/Script/Assembler.cs:448 | `short.Parse` yields a value in the signed 16-bit range |
| Numerals.ParseUInt16 | src/MajiroLib/Script/Assembler.cs:464-480 | `ushort.Parse` yields a value in the unsigned 16-bit range |
| Numerals.ParseInt32 | src/MajiroLib/Script/Assembler.cs:378 | `int.Parse` succeeds exactly when `int.TryParse` does, with the same value |
| Numerals.TryParseHex | src/MajiroLib/Script/Assembler.cs:69-76 | a hexadecimal numeral that parses fits in 32 bits |
| Numerals.SignedOf | src/MajiroLib/Script/Assembler.cs:379-380 | the two's-complement reading of 32 bits: the bits below 2^31, the bits minus 2^32 from there on |
| Numerals.TryParseHexInt32 | src/MajiroLib/Script/Assembler.cs:69-76 | the hexadecimal `int.TryParse` succeeds exactly when the 32-bit pattern parses, and reads it as two's complement |
| Numerals.ParseHexInt32 | src/MajiroLib/Script/Assembler.cs:379-394 | the hexadecimal `int.Parse` succeeds exactly when the pattern parses, and reads it as two's complement |
| Numerals.ParseHexUInt32 | src/MajiroLib/Script/Assembler.cs:274 | the hexadecimal `uint.Parse` succeeds exactly when the pattern parses, and gives the pattern |
| Numerals.Negate32 | src/MajiroLib/Script/Assembler.cs:390 | the unchecked negation of an int: -v, except that int.MinValue stays itself |
| Numerals.NotDecimal | src/MajiroLib/Script/Assembler.cs:74 | text starting with anything but a digit, a sign or white space is no decimal numeral |
| Numerals.ExponentStart | src/MajiroLib/Script/Assembler.cs:78 | the position of the first exponent letter, with none before it |
| Numerals.Lower | src/MajiroLib/Script/Assembler.cs:90-104 | `ToLower` keeps the length and lowers each ASCII letter |
| Numerals.NoFloat | src/MajiroLib/Script/Assembler.cs:78 | text starting with anything but a digit, a point, a sign, a letter or white space is no float |
| Numerals.NoMantissa | src/MajiroLib/Script/Assembler.cs:78 | a mantissa starts with a digit or the point |
| Numerals.HexDigitsValue | src/MajiroLib/Script/Analysis/Source/DumpVisitor.cs:33 | the n hexadecimal digits of v read back as v's low part |
| Numerals.Hex8 | src/MajiroLib/Script/Analysis/Source/DumpVisitor.cs:33 | `{hash:x8}` has eight hexadecimal digits |
| Numerals.HexPadded | src/MajiroLib/Script/Analysis/ControlFlow/ControlFlowPass.cs:116 | `{offset:x4}`: the hexadecimal digits of v, padded with zeros to at least n, and exactly n digits when v fits |
| Numerals.Hex8Parses | src/MajiroLib/Script/Assembler.cs:274 | the hexadecimal parser reads the eight digits of `{hash:x8}` back |
| Numerals.DecimalDigitsValue | src/MajiroLib/Script/Assembler.cs:378 | the decimal digits of n are at least one and read back as n |
| Numerals.DecimalTextParses | src/MajiroLib/Script/Assembler.cs:378 | the decimal parser reads the text of an int back, in any range that holds it |
| Tokenizer.PunctuationWord | src/MajiroLib/Script/Assembler.cs:82-83 | a single punctuation character is a punctuation word |
| Tokenizer.Decide | src/MajiroLib/Script/Assembler.cs:156-204 | the decision of one turn fails exactly at the assertion on a '%' after pending text that does not start with '$' |
| Tokenizer.Apply | src/MajiroLib/Script/Assembler.cs:144-217 | carrying out a decision moves row and column as the character says and sets the three flags the decision chose |
| Tokenizer.ThenStep | src/MajiroLib/Script/Assembler.cs:128-218 | one character moves from the rest of the input to the tokens yielded, or stops the stream with its error |
| Tokenizer.ThenEnd | src/MajiroLib/Script/Assembler.cs:131-135 | at the end of the input the pending text is finished and the end-of-file token follows |
| Tokenizer.TypedOne | src/MajiroLib/Script/Assembler.cs:112-122 | finishing one lexeme yields its classified token |
| Tokenizer.EndsOnce | src/MajiroLib/Script/Assembler.cs:131-135 | with a classifier that never gives the end-of-file kind, a stream ends with the end-of-file token and holds no other |
| Tokenizer.RunOne | src/MajiroLib/Script/Assembler.cs:128-218 | running one character is one turn of the loop |
| Tokenizer.CommentRun | src/MajiroLib/Script/Assembler.cs:173-177 | inside a comment, a line's body is read without finishing anything |
| Tokenizer.CommentOpens | src/MajiroLib/Script/Assembler.cs:181-184 | outside a string, ';' starts a comment and is itself discarded |
| Tokenizer.CommentCloses | src/MajiroLib/Script/Assembler.cs:173-177 | the newline ends a comment, is discarded too, and only moves to the next row |
| Tokenizer.EscapedUnclosed | src/MajiroLib/Script/Assembler.cs:156-171 | an escaped string body meets no unescaped quote and leaves no escape pending |
| Tokenizer.StringRun | src/MajiroLib/Script/Assembler.cs:156-171 | inside a string, a body that meets no unescaped quote goes into the pending text and finishes nothing |
| Tokenizer.QuoteOpens | src/MajiroLib/Script/Assembler.cs:178-180 | outside a string and a comment, a quote opens a string and starts the pending text |
| Tokenizer.QuoteCloses | src/MajiroLib/Script/Assembler.cs:166-169 | an unescaped quote inside a string closes it and finishes the pending text with the quote |
| Tokenizer.RowsRun | src/MajiroLib/Script/Assembler.cs:144-147 | for a machine that counts rows, the row after any input is the start row plus the newlines read |
| Opcodes.Presence | src/MajiroLib/Script/Opcode.cs:43-65 | which of the six types the allowed mask has, one flag per type |
| Opcodes.PositionsComplete | src/MajiroLib/Script/Opcode.cs:43-65 | every allowed type index from k on is among the positions the generator visits |
| Opcodes.HighByValue | src/MajiroLib/Script/Opcode.cs:192-243 | `ByValue` finds every opcode of the 0x800 block under its own value |
| Opcodes.TransitionIsKnown | src/MajiroLib/Script/Opcode.cs:47-103 | no generated family descriptor is the unknown transition "???" |
| Opcodes.VariantsHaveNoPlaceholder | src/MajiroLib/Script/Opcode.cs:43-104 | the variants of a family never carry the unknown transition |
| Opcodes.LoadsAndBranchesPlaceholders | src/MajiroLib/Script/Opcode.cs:193-213 | the loads, calls and fixed branches carry no unknown transition |
| Opcodes.HighPlaceholders | src/MajiroLib/Script/Opcode.cs:192-243 | in the 0x800 block exactly 0x83b-0x83d, 0x841 and 0x842 carry the unknown transition |
| Opcodes.LowPlaceholders | src/MajiroLib/Script/Opcode.cs:108-190 | opcodes below the 0x800 block never carry the unknown transition |
| ControlFlowPass.FollowerIsStart | src/MajiroLib/Script/Analysis/ControlFlow/ControlFlowPass.cs:124-146 | the instruction after a branch that is not the function's last, and each of the branch's successors, is one of the function's block starts |
| ControlFlowPass.StartShape | src/MajiroLib/Script/Analysis/ControlFlow/ControlFlowPass.cs:100-155 | the starting function holds one inhabited block per start, the blocks listed in order, and no exit block yet |
| ControlFlowPass.AnalysedPrunedBlock | src/MajiroLib/Script/Analysis/ControlFlow/ControlFlowPass.cs:156-199 | analysis and pruning keep each block's name, entry flag and first offset; a block is an exit exactly when it ends in a return, and unreachable exactly when it was dropped |
| ControlFlowPass.PlaceNext | src/MajiroLib/Script/Analysis/ControlFlow/ControlFlowPass.cs:242-248 | one turn of the layout loop: the next instruction's size, and on success that instruction placed at the running offset, the offset moved past it |
| Assembler.AssembledAll | src/MajiroLib/Script/Assembler.cs:685-693 | past the last instruction nothing more is written |
| Assembler.Reread | src/MajiroLib/Script/Disassembler.cs:53-143 | what the disassembler makes of an instruction's bytes keeps its opcode and offset |
| Assembler.AssembledSized | src/MajiroLib/Script/Assembler.cs:686-692 | each instruction is written at the running offset, and the rest follows right after it |
| Assembler.AssembledLayout | src/MajiroLib/Script/Assembler.cs:685-693 | the written byte code lays the instructions out from the start offset |
| Assembler.LayoutDecodes | src/MajiroLib/Script/Disassembler.cs:41-51 | the stream loop run over laid-out byte code reads each instruction back from its start |
| Assembler.MarksOf | src/MajiroLib/Script/Assembler.cs:686-692 | the read-mark count of the whole byte code fits the header field |
| Bytecode.DecodeOpcode | src/MajiroLib/Script/Disassembler.cs:53-143 | with the opcode found in the table and its operands read, decoding sizes the instruction by what it read |
| Bytecode.DecodeOk | src/MajiroLib/Script/Disassembler.cs:53-143 | the decoded instruction gets the size of the bytes its opcode and operands took |
| Pruning.PruneStart | src/MajiroLib/Script/Analysis/ControlFlow/ControlFlowPass.cs:180 | the pruning invariant holds at the start, with the unreachable blocks queued |
| Pruning.DropStep | src/MajiroLib/Script/Analysis/ControlFlow/ControlFlowPass.cs:183 | removing a dropped block from one successor's predecessors keeps the invariant, and queues that successor when it becomes unreachable |
| Pruning.DropEnd | src/MajiroLib/Script/Analysis/ControlFlow/ControlFlowPass.cs:181-188 | clearing the dropped block's successors completes one turn and adds the block to the dropped set and the order |
| Pruning.OrderClosed | src/MajiroLib/Script/Analysis/ControlFlow/ControlFlowPass.cs:180-188 | every dropped block lies in any set closed under being dead |
| Pruning.SameDropped | src/MajiroLib/Script/Analysis/ControlFlow/ControlFlowPass.cs:180-188 | the pruned arena is determined by the set of dropped blocks |
| Disassembler.Magic | src/MajiroLib/Script/Disassembler.cs:16-18 | the 16-byte signature, with the variant letter at position 9 |
| Unhasher.Saturated | src/MajiroLib/Script/CrcUnhasher.cs:103-105 | the levels with the first k raised to the top, the others kept |
| Unhasher.CarryWraps | src/MajiroLib/Script/CrcUnhasher.cs:114-129 | when the carry runs past the last position, every level resets to zero and the increment wraps |
| Unhasher.CrcUnhasher.Record | src/MajiroLib/Script/CrcUnhasher.cs:85-131 | one more combination counted, the reported pattern made current and the carry-out recorded as finished, nothing else changed |
| ScriptWriter.FileLayout | src/MajiroLib/Script/Assembler.cs:664-682 | fields written one after another lie at their fixed offsets |
| ScriptWriter.FileReads | src/MajiroLib/Script/Disassembler.cs:16-32 | the header fields read back in the order the disassembler reads them |
| Encoder.WriteInt32s | src/MajiroLib/Script/Assembler.cs:762-768 | four bytes per case displacement |
| Encoder.EncodeOk | src/MajiroLib/Script/Assembler.cs:695-774 | an instruction whose operands encode is the opcode value followed by them |
| Encoder.OperandsSizeOfEncoding | src/MajiroLib/Script/Assembler.cs:776-819 | the computed operand size is the length of the operand encoding |
| Bytes.LittleEndian | src/MajiroLib/Script/Assembler.cs:664-682 | the n low bytes of a value, least significant first |
| Bytes.UnsignedBound | src/MajiroLib/Script/Disassembler.cs:20-29 | an n-byte little-endian read is below 256^n |
| Bytes.SignedRange | src/MajiroLib/Script/Disassembler.cs:93-103 | a signed 2- or 4-byte read lies in its signed range |

## Left out

- Text encoding. `Helpers.ShiftJis` (src/MajiroLib/Helpers.cs:14) throws on a character it cannot encode or a byte sequence it cannot decode (`ExceptionFallback`). The model keeps string operands as raw bytes and takes the encoder (`Parser.Externals.encode`) as a total function, so that exception is not modelled.
- Floating point. `float.Parse`/`float.TryParse` and the formatting of floats are left out. The parser receives `float.Parse` as the parameter `Parser.Externals.parseFloat`, and the tokenizer models only the shape of text `float.TryParse` accepts (`Numerals.FloatShape`). Float operands are opaque 32-bit words.
- Culture. `int.TryParse` and `float.TryParse` at src/MajiroLib/Script/Assembler.cs:74 and :78 take the current culture. The model uses the invariant culture's syntax: ASCII digits, '-' and '+' as signs, '.' as the decimal point, no group separators.
- Tokenizer.Tokenize: `ToLower` at src/MajiroLib/Script/Assembler.cs:85-103 is the culture-aware Unicode mapping, while `Numerals.Lower` lowers only 'A'-'Z'. So "readmarK" (ending in the Kelvin sign) is the ReadMark keyword in the source and a name in the model.
- Tokenizer.Tokenize: rows and columns count Dafny characters (code points), while the source counts UTF-16 code units. Text outside the Basic Multilingual Plane therefore shifts the columns of error messages, and the lengths of `Substring` arguments.
- Tokenizer.Tokens: the token stream comes from the same turns as `Tokenizer.Tokenize`, so it has the same two gaps: keywords are lowered for 'A'-'Z' only, and rows and columns count code points, not UTF-16 code units.
- Parser.Parse: the model tokenizes the whole input before parsing. In the source, `Tokenize` is a lazy enumerator and the first `Advance` runs outside the `try` (src/MajiroLib/Script/Assembler.cs:227, 636). When a parse error comes before a later tokenizer error, the model reports the tokenizer's error and the source reports the wrapped parse error.
- SanityCheck. `MjoScript.SanityCheck` and `Instruction.SanityCheck` are not part of this model, so no call of them is modelled: not the one in `Parser.Parse` (src/MajiroLib/Script/Assembler.cs:632), and not any of those in the passes (ControlFlowPass.cs, StackTransitionPass.cs and DecompilerPass.cs, at each change of representation and at each early return).
- Parser.Parser.ParseBlockOperands: its contract gives the opcode, the block and the targets within the function, but not the operand values. The list form's `Parser.InstructionAt` fixes those values, and the block form reads operands the same way, but no lemma connects the two.
- Parser.Parser.ParseBlock: states the labels read and the shape of the instructions, not their operand values.
- Parser.Parser.ParseScript: in the block form, states the functions' shape and targets, not their contents.
- Parser.Parse: in the block form, the result is constrained only to well-formed functions in the graph representation.
- Debug builds. Each `Debug.Assert` and `Debug.Fail` is an error, as in a debug build. That includes the reads inside `Debug.Assert(reader.ReadByte() == 0)` (src/MajiroLib/Script/Disassembler.cs:77) and `Debug.Assert(reader.ReadInt32() == 0)` (:98), which a release build skips, so the offsets of the later operands differ there.
- Graph.BasicBlockFromOffset: `Script.Instructions[block.FirstInstructionIndex]` (src/MajiroLib/Script/Analysis/ControlFlow/Function.cs:37) is read as the block's first instruction, because the revision of BasicBlock.cs in this repository has no `FirstInstructionIndex`.
- Revisions. The repository's MjoScript.cs and Instruction.cs are older revisions than the passes that use them: MjoScript.cs declares `Instructions` readonly, and Instruction.cs has `StackState` where the stack pass reads `BeforeValues`. The model's script holds the fields the passes read and write: the representation, the entry point offset, the function index, the read-mark flag, the functions, the entry point function, and whether the instruction list has been set to null. The model's instruction holds optional offset, size, jump displacement, switch cases, block and jump targets.
- Function starts. `function.FirstInstruction` (src/MajiroLib/Script/Analysis/ControlFlow/ControlFlowPass.cs:279, 284) is not in the revision of ControlFlow/Function.cs in this repository, which has `FirstInstructionIndex` instead. It is read as the first instruction of the function's first listed block.
- Assembler.AssembleScript: `script.InternalizeStrings()` (src/MajiroLib/Script/Assembler.cs:656) is not part of this model, so an instruction that still refers to an externalised string is not internalised first: encoding it fails with the `ExternalizedString` error.
- Exception messages. A message that interpolates a value keeps only its fixed text. For example, `Flags.Array` says "Can't create array type" without " from {type}", and `Flags.ElementType` says "Can't resolve element type" without " of {type}" (src/MajiroLib/Script/Flags.cs:78, 82). The model matches errors by kind and fixed text, not by the formatted value.
- Exceptions. A method that throws part-way leaves its partial changes in the source. The model returns the error and says nothing of that partial state where the source's callers discard the object.
- Aliasing. Instructions and blocks are values, and blocks live in a per-function arena indexed by number. An instruction's `Block` and a block's edges are indices, not shared references, so the model does not capture two lists sharing one mutable instruction.
- Hash order. `Dictionary` and `HashSet` enumerate in insertion order when nothing has been removed, and the model relies on that. `TopologicalSort` (src/MajiroLib/Helpers.cs:40-58) walks its dictionary's keys in the list's order.
- Console output. The digraph `TopologicalSort` prints, the text `StackTransitionPass.WriteStackState` writes and the dump inside `DecompilerPass.ToSource` are left out. The exception the phi print throws is modelled (see Findings).
- Counts. List counts and indices are below 2^31, as for a .NET list. The model states this where a count reaches an `int` field; elsewhere counts are unbounded.
- Names. `Data.KnownSyscallNames`, `Data.KnownFunctionNamesByHash`, `Data.SyscallSuffix`, `Opcode.ByMnemonic` and the `Unescape` extension are parameters of the parser (`Parser.Externals`), because they are not part of this model. Neither is `IsBselClr`.
- The text disassembly. `PrintInstruction` and the other text output of Disassembler.cs are left out. The printed text does not read back through the tokenizer: modifiers print as "modify_*", and strings are not escaped.
- Consumers. `StackValue.Consumers` (src/MajiroLib/Script/Analysis/StackTransition/StackValue.cs) is not a field of the model. The consumers of a value are the instructions whose popped values hold it, as `StackTransitionPass.Consumes` states.
- Decompilation.IfAt: the loop branch of `brfalse` (src/MajiroLib/Script/Analysis/Source/DecompilerPass.cs:733-747) is not modelled. It runs when an unconditional jump follows the `brfalse`; it checks the condition block's predecessors and decompiles the loop body, then discards the body. The model skips that branch, so neither its assertions nor what the body's decompilation does to the evaluation stack are captured.
- `FindMergeBlock` (src/MajiroLib/Script/Analysis/Source/DecompilerPass.cs:185-207) is never called, and is not modelled.
- Syntax-node bookkeeping. The `Nodes` dictionary (src/MajiroLib/Script/Analysis/Source/DecompilerPass.cs:56) is only written, never read, and is not modelled. Of the `DBlock` fields (:38-48), only the block and its dominator sets are modelled; `InternalStatements`, `JumpCondition`, `JumpTarget` and `JumpFallthrough` are never set.
- Decompilation.DecompileFunction: its contract states only that the tree is named by the function's hash. What the body holds is stated by the lemmas about `BlockFrom` and `StatementFrom`.
- Decompilation.StatementFrom: the text of `Debug.Fail("Unrecognized instruction: " + instruction)` (src/MajiroLib/Script/Analysis/Source/DecompilerPass.cs:812) is kept without the instruction's own text, which comes from `Instruction.ToString` and is not part of this model.
- Reference equality. Instructions and blocks that the decompiler compares by reference are compared by their positions in the instruction list and their block ids.
- `IsBselClr` is not part of this model. The decompiler takes it as the parameter `isBselClr`. The opcode switch of `DecompileStatement` is the `actionOf` field of the decompiler's context, which is always `Decompilation.ActionOf`.
- Fuel. The walks of the decompiler, the dominator loop and the `Intersect` loops may not stop on every graph. They take a fuel bound and stop with `OutOfFuel` when it runs out; the source has no such bound.
- Dump output: the console colours of `IColoredWriter` are left out. The float format `#.0#############` (src/MajiroLib/Script/Analysis/Source/DumpVisitor.cs:186), the `Escape` extension and the name tables of known functions and system calls are parameters of `Show`. After an exception the written prefix is kept in `failed`, as the console would show it.
- ControlFlowPass.AnalyzeFunction: keeps the blocks in the order of their start indices. The source sorts them by the offset of their first instruction (src/MajiroLib/Script/Analysis/ControlFlow/ControlFlowPass.cs:157) before linking consecutive blocks. The two orders agree when the offsets ascend with the index (`FunctionAnalysis.SortedByOffset`), as in a script the disassembler read; for a list whose addresses do not ascend, which the parser's list form accepts, the model links other consecutive blocks than the source.
- GraphForm.AnalyzeFunctions: inherits the start-index block order of `ControlFlowPass.AnalyzeFunction`, with the same gap for addresses that do not ascend.
- GraphPass.ToControlFlowGraph: inherits the start-index block order of `ControlFlowPass.AnalyzeFunction`, with the same gap for addresses that do not ascend.
- DecompilerPass.ToSource: the dump of each tree (src/MajiroLib/Script/Analysis/Source/DecompilerPass.cs:30-31) is not run. So an exception the dump throws (an unnamed scope or type in `Dump.IdentifierText` or `Dump.TypeSuffix`, a string `Dump.QuotedText` cannot escape) does not end the loop: the model converts a script where the source throws after that function and leaves it in transition. What the dump writes, and when it throws, is stated by the `Dump.Dumper` methods.
- Dump.Dumper.WriteNewline: writes "\n", where `writer.WriteLine()` (src/MajiroLib/Script/Analysis/Source/DumpVisitor.cs:65) writes `Environment.NewLine`, which is "\r\n" on Windows.
- StackTransitionPass.SimulateBlock: models the turn without the phi print of src/MajiroLib/Script/Analysis/StackTransition/StackTransitionPass.cs:173-174, which throws `NullReferenceException` once a merge makes a phi node (see Findings; the as-written turn is `StackTransitionPass.BlockSimulatedAsWritten`).
- StackTransitionPass.ToSsaGraphFunction: models the turn without the phi print of src/MajiroLib/Script/Analysis/StackTransition/StackTransitionPass.cs:173-174, which throws `NullReferenceException` once a merge makes a phi node (see Findings; the as-written turn is `StackTransitionPass.BlockSimulatedAsWritten`).
- StackTransitionPass.SsaFunctions: models the turn without the phi print of src/MajiroLib/Script/Analysis/StackTransition/StackTransitionPass.cs:173-174, which throws `NullReferenceException` once a merge makes a phi node (see Findings; the as-written turn is `StackTransitionPass.BlockSimulatedAsWritten`).
- StackTransitionPass.ToSsaGraph: models the turn without the phi print of src/MajiroLib/Script/Analysis/StackTransition/StackTransitionPass.cs:173-174, which throws `NullReferenceException` once a merge makes a phi node (see Findings; the as-written turn is `StackTransitionPass.BlockSimulatedAsWritten`).
- Decompilation.StoreOf: models an array store that empties the evaluation stack, as intended; the source keeps the stack (src/MajiroLib/Script/Analysis/Source/DecompilerPass.cs:257-267, see Findings; the as-written step is `Decompilation.StoreAsWritten`).
- Decompilation.StatementStack: models an array store that empties the evaluation stack, as intended; the source keeps the stack (src/MajiroLib/Script/Analysis/Source/DecompilerPass.cs:257-267, see Findings; the as-written step is `Decompilation.StoreAsWritten`).
- Decompilation.StoreLeaves: models an array store that empties the evaluation stack, as intended; the source keeps the stack (src/MajiroLib/Script/Analysis/Source/DecompilerPass.cs:257-267, see Findings; the as-written step is `Decompilation.StoreAsWritten`).
- DecompilerPass.Decompiler.ProcessArrayAssignmentP: models an array store that empties the evaluation stack, as intended; the source keeps the stack (src/MajiroLib/Script/Analysis/Source/DecompilerPass.cs:257-267, see Findings; the as-written step is `Decompilation.StoreAsWritten`).
- DecompilerPass.Decompiler.StoreCase: models an array store that empties the evaluation stack, as intended; the source keeps the stack (src/MajiroLib/Script/Analysis/Source/DecompilerPass.cs:257-267, see Findings; the as-written step is `Decompilation.StoreAsWritten`).
- Decompilation.Decompiled: reads each function's instructions from its blocks, as intended; the source reads the function's index range at src/MajiroLib/Script/Analysis/Source/DecompilerPass.cs:63 and throws for a graph function (see Findings; the as-written step is `Decompilation.DecompileFunctionAsWritten`).
- Decompilation.DecompiledAt: reads each function's instructions from its blocks, as intended; the source reads the function's index range at src/MajiroLib/Script/Analysis/Source/DecompilerPass.cs:63 and throws for a graph function (see Findings; the as-written step is `Decompilation.DecompileFunctionAsWritten`).
- Decompilation.DecompiledInOrder: reads each function's instructions from its blocks, as intended; the source reads the function's index range at src/MajiroLib/Script/Analysis/Source/DecompilerPass.cs:63 and throws for a graph function (see Findings; the as-written step is `Decompilation.DecompileFunctionAsWritten`).
- DecompilerPass.Decompiler.constructor: reads each function's instructions from its blocks, as intended; the source reads the function's index range at src/MajiroLib/Script/Analysis/Source/DecompilerPass.cs:63 and throws for a graph function (see Findings; the as-written step is `Decompilation.DecompileFunctionAsWritten`).
- DecompilerPass.Decompiler.Decompile: reads each function's instructions from its blocks, as intended; the source reads the function's index range at src/MajiroLib/Script/Analysis/Source/DecompilerPass.cs:63 and throws for a graph function (see Findings; the as-written step is `Decompilation.DecompileFunctionAsWritten`).
- DecompilerPass.DecompileOne: reads each function's instructions from its blocks, as intended; the source reads the function's index range at src/MajiroLib/Script/Analysis/Source/DecompilerPass.cs:63 and throws for a graph function (see Findings; the as-written step is `Decompilation.DecompileFunctionAsWritten`).
- DecompilerPass.DecompileFunctions: reads each function's instructions from its blocks, as intended; the source reads the function's index range at src/MajiroLib/Script/Analysis/Source/DecompilerPass.cs:63 and throws for a graph function (see Findings; the as-written step is `Decompilation.DecompileFunctionAsWritten`).
- StackTransitionPass.CfgFunctions: `script.Blocks` (src/MajiroLib/Script/Analysis/StackTransition/StackTransitionPass.cs:146) is not a member of the repository's MjoScript.cs; the model reads it as the listed blocks of each function, function by function.

## Findings

| source | as written | input that shows it | evidently intended | confidence | as-written member | corrected member |
|---|---|---|---|---|---|---|
| src/MajiroLib/Script/Analysis/ControlFlow/ControlFlowPass.cs:160-174 | the link loop skips `IsExitBlock` blocks, but `AnalyzeBasicBlock` only sets that flag later (line 197), so a block that ends in a return is given the next block as successor | a function `brfalse` to the third instruction, `ret`, `ret`: the block `ret` at index 1 gets block 2 as its successor | a block that ends in a return has no successors | not executed | FunctionAnalysis.ReturnLinkedAsWritten | FunctionAnalysis.ReturnNotLinked, ControlFlowPass.AnalyzeFunction |
| src/MajiroLib/Script/Assembler.cs:346,351 | `Debug.Assert(type == 0)` and `Debug.Assert(scope == 0)` test the field's value; Int and Persistent are both 0, so a repeated keyword passes when the first was Int or Persistent | "int float" gives type Float; "persistent save" gives scope SaveFile | each category of flag keyword at most once | not executed | Parser.IntThenFloat | Parser.FieldsOnceValues, Parser.FlagsRead |
| src/MajiroLib/Script/Assembler.cs:577 | `function.Instructions` is the index range of ControlFlow/Function.cs:27-29 (a revision with `FirstInstructionIndex`, other than the one ControlFlowPass.cs:279 reads `FirstInstruction` of), but a function built by the parser has no first index, so the range throws | any graph-form script with a function body | the function's instructions are those of its blocks | not executed | Parser.LocalTypesAsWrittenFail | Parser.Parser.ParseFunction, Parser.BuiltParsed |
| src/MajiroLib/Script/Analysis/ControlFlow/ControlFlowPass.cs:238 | `function.Instructions` is the index range of ControlFlow/Function.cs:27-29 (a revision with `FirstInstructionIndex`, other than the one line 279 reads `FirstInstruction` of), but neither `ToControlFlowGraph` nor the parser ever sets a function's `FirstInstructionIndex`, so the range throws | flattening any graph that has a function, for instance one `ToControlFlowGraph` just built | the instructions of the function's blocks, in list order | not executed | Relisting.FlattenAsWrittenFails | Relisting.Relist, Relisting.RelistedJumpLands |
| src/MajiroLib/Script/Analysis/Source/DecompilerPass.cs:262-263 | `EvaluationStack[0]` is the value and `EvaluationStack.Take(dimension)` the indices, so the indices start with the value and the last index is lost | `stelemp.i` for `a[1] = 7` with the stack [7, 1]: the indices are [7] | the nodes above the value are the indices | not executed | Decompilation.ArrayIndexLost | Decompilation.ArrayAssignmentOf |
| src/MajiroLib/Script/Analysis/Source/DecompilerPass.cs:775-782 | `Debug.Assert(EvaluationStack.Count == 0)` comes before the operands are popped, so every control code with an operand fails the assertion | `ctrl("s")` with its one operand on the stack | the stack holds exactly the control code's operands, which the statement takes | not executed | Decompilation.CtrlOperandRejected, Decompilation.CtrlAsWrittenBare | Decompilation.CtrlOf |
| src/MajiroLib/Script/Analysis/StackTransition/StackTransitionPass.cs:140-144 | the first loop walks `script.Instructions` and the block loop clears only the blocks' states. A script converted from an instruction list has a null list (src/MajiroLib/Script/Analysis/ControlFlow/ControlFlowPass.cs:63), so the loop throws. A script read in graph form has an empty list, so its blocks' instructions keep their stack values | an instruction list converted to a graph, then to SSA form, then back, throws; a graph-form script with an instruction, converted to SSA form, back, and to SSA form again, fails, at the latest at `Debug.Assert(instruction.BeforeValues == null)` | the stack values of every function's instructions are cleared | not executed | StackTransitionPass.ToControlFlowGraphAsWritten, StackTransitionPass.SecondSsaRejected | StackTransitionPass.ToControlFlowGraph, StackTransitionPass.ScriptRoundTrip |
| src/MajiroLib/Script/Analysis/StackTransition/StackTransitionPass.cs:173-174 | the phi nodes are printed whatever `Verbose` says, and `WriteStackState(function, phi, false, false)` leaves `temps` true, so it reads `BeforeValues.Length` (line 80) of a phi node, which is never given `BeforeValues` (line 182 sets them for block instructions only) | a block with two predecessors whose end states hold different int temporaries in one slot | the print only when `Verbose` is set, as for the other prints of the loop | not executed | StackTransitionPass.PhiPrintThrows | StackTransitionPass.PhiMergeKept, StackTransitionPass.SimulateBlock |
| src/MajiroLib/Script/Analysis/Source/DecompilerPass.cs:257-267 | unlike `ProcessAssignmentP` (lines 241-249), `ProcessArrayAssignmentP` never clears `EvaluationStack`, so its value and indices stay for the next statement | `stelemp.i` for `a[1] = 7` followed by `ret` without a value: the return sees the two nodes 7 and 1 and fails `EvaluationStack.Count <= 1` | the stack is cleared, as after a plain assignment | not executed | Decompilation.ArrayStackKept | Decompilation.StoreOf, Decompilation.StatementStack |
| src/MajiroLib/Script/Analysis/Source/DecompilerPass.cs:63 | `function.Instructions` is the index range of ControlFlow/Function.cs:27-29 (the revision with `FirstInstructionIndex`), which neither the graph pass nor the parser sets, so the range throws | decompiling any function of a graph, for instance one `ToControlFlowGraph` just built | the instructions of the function's blocks, in list order | not executed | Decompilation.DecompileAsWrittenFails | Decompilation.DecompiledInOrder, DecompilerPass.DecompileFunctions |

The loop on which `LegacyFindings.LoopRejected` shows the second legacy builder failing is not a row of this table. That builder (src/MajiroLib/Script/Analysis/ControlFlow/ControlFlowGraph.cs) is called from nowhere in the repository and is superseded by ControlFlowPass.cs, so the model has no intended version of it for the rest of the pipeline to use.
