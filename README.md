# jd-gui core, modelled in Dafny

This project models the parts of jd-gui (a Java decompiler with a desktop
front end) that have real logic in them, and proves what they do.

It covers:

- **The decompiler's constant pool** (`ConstantPool`, `constant_pool.dfy`).
  - It is an append-only table of class-file constants.
  - Slot 0 is reserved, as in section 4.4 of the Java Virtual Machine Specification.
  - Utf8 and Class entries are deduplicated through two reverse maps.
  - NameAndType, Fieldref and Methodref entries are deduplicated by a backward scan that stops before slot 0.
  - The constructor copies the decoded constants and then appends 29 well-known names.
  - The model is a class whose `constants` sequence and maps its methods update.
  - An invariant ties the maps to the table.
- **One local-variable record** (`LocalVariable`, `local_variable.dfy`), as in section 4.7.13 of the Java Virtual Machine Specification.
  - `updateRange` widens the live range to cover an offset.
  - `compareTo` orders records by `(nameIndex, length, start_pc, index)`.
  - Java `int` arithmetic, including its 32-bit wrap-around, is written out (`Wrap32`).
- **Three recursive passes over the decompiler's instruction tree.** They share one closed `Instruction` datatype (`instruction.dfy`).
  - `SetConstantTypeInStringIndexOfMethodsVisitor` (`string_index_of.dfy`):
    - It retypes a `BIPUSH`/`SIPUSH` argument of `String.indexOf`/`lastIndexOf(I…)I` from `I` to `C`.
    - The pass is a function returning the rewritten tree or the exception that ended the walk.
    - The list visit is a method that rewrites an array in place.
  - `CheckLocalVariableUsedVisitor` (`local_variable_use.dfy`) asks whether a subtree loads or stores a variable whose range starts at or after `maxOffset`.
  - `MinLineNumberVisitor` (`min_line_number.dfy`) follows the first-evaluated operand down to a line number.
- **The Maven source loader** (`maven_source_loader.dfy`):
  - the `+`/`-` package filters;
  - the hex digest string;
  - splitting `group:artifact:version` and building the source-jar path;
  - the `.class` to `.java` name;
  - the cache and failure set of `downloadSourceJarFile`.
- **The Java file indexer's listener** (`java_file_indexer.dfy`):
  - It keeps the internal name of the type being visited in a string builder: `pkg/Outer$Inner`.
  - It collects declared types, constructors, methods and super types.
  - `index` finally inverts the super-type map into sub-type lists.
- **The `String` searches** `indexOf` and `lastIndexOf` (`java_strings.dfy`), shared by the source loader and the indexer.

Java exceptions become `Result` errors (`wrappers.dfy`):

- a null or `L[` string given to `addConstantUtf8`;
- `ClassCastException`, `IndexOutOfBoundsException` and `NullPointerException` from the pool's getters.

Where a method updates an object in place, the model's method has a `modifies` clause. Its `ensures` state the new state as a function of the old one, and the lemmas about those functions carry the properties.

## Model

| member | source | states |
|---|---|---|
| ConstantPools.At | services/src/main/java/jd/core/model/classfile/ConstantPool.java:196-199 | `get(i)` yields the entry at `i` exactly when `i` is inside the table; otherwise it fails with an index-out-of-bounds error |
| ConstantPools.Utf8At | services/src/main/java/jd/core/model/classfile/ConstantPool.java:337-341 | `getConstantUtf8(i)` succeeds iff slot `i` exists and holds a Utf8 entry, and returns that entry's text. A null slot fails with a null-pointer error and another kind with a class-cast error |
| ConstantPools.ClassNameAt | services/src/main/java/jd/core/model/classfile/ConstantPool.java:343-348 | `getConstantClassName(i)` succeeds iff slot `i` holds a Class entry whose name slot holds a Utf8 entry; the result is that Utf8 text |
| ConstantPools.CastAt | services/src/main/java/jd/core/model/classfile/ConstantPool.java:350-368 | The typed getters succeed iff the slot exists and is null or of the requested kind. A null slot yields no constant; a non-null result is the slot's entry; the failure is a class-cast error inside the table and index-out-of-bounds outside it |
| ConstantPools.LastMatch | services/src/main/java/jd/core/model/classfile/ConstantPool.java:255-269 | The backward scan's answer: either 0, or a slot below the bound holding an equal pair. No higher slot above 0 holds one |
| ConstantPools.LastMatchAfterAppend | services/src/main/java/jd/core/model/classfile/ConstantPool.java:257-275 | After an entry is appended to a non-empty table, the scan for its pair finds the appended slot |
| ConstantPools.EmptyTableScanMissesSlotZero | services/src/main/java/jd/core/model/classfile/ConstantPool.java:257 | The scan never examines slot 0: even an equal pair there is not found |
| ConstantPools.WellKnownNamesAllowed | services/src/main/java/jd/core/model/classfile/ConstantPool.java:95-192 | None of the names the constructor adds starts with `L[`, so none of those adds throws |
| ConstantPools.AppendKeepsMapsAgree | services/src/main/java/jd/core/model/classfile/ConstantPool.java:223-225 | Appending an entry and recording it in the matching reverse map keeps both maps in agreement with the table |
| ConstantPools.Utf8KeyedIffPresent | services/src/main/java/jd/core/model/classfile/ConstantPool.java:217-219 | While the maps agree with the table, a string is a key of the Utf8 map iff a Utf8 entry with that text is in the table |
| ConstantPools.ClassKeyedIffPresent | services/src/main/java/jd/core/model/classfile/ConstantPool.java:239-241 | While the maps agree with the table, a name index is a key of the Class map iff a Class entry with that name index is in the table |
| ConstantPools.ConstantPool.constructor | services/src/main/java/jd/core/model/classfile/ConstantPool.java:70-194 | The input is a prefix of the new table. Every well-known name's recorded slot holds that name, and the recorded Object class slot holds a Class entry naming Object's slot. The maps agree with the table |
| ConstantPools.ConstantPool.CopyConstants | services/src/main/java/jd/core/model/classfile/ConstantPool.java:76-93 | The copy loop leaves the table equal to the input, with maps that agree with it |
| ConstantPools.ConstantPool.AddWellKnownEntries | services/src/main/java/jd/core/model/classfile/ConstantPool.java:95-192 | The constructor's run of adds only appends. Each returned index holds its name, and the Class slot holds the class of the chosen name's slot |
| ConstantPools.ConstantPool.AddNames | services/src/main/java/jd/core/model/classfile/ConstantPool.java:95-116 | A run of `addConstantUtf8` calls only appends, and each returned index holds its name |
| ConstantPools.ConstantPool.AddWellKnownName | services/src/main/java/jd/core/model/classfile/ConstantPool.java:96-97 | One add of a name: old slots are unchanged and the returned slot holds the name |
| ConstantPools.ConstantPool.AddObjectClass | services/src/main/java/jd/core/model/classfile/ConstantPool.java:121-122 | `objectClassIndex` holds a Class entry whose name index is Object's name slot; old slots are unchanged |
| ConstantPools.ConstantPool.AddConstantUtf8 | services/src/main/java/jd/core/model/classfile/ConstantPool.java:208-229 | A null string and an `L[` string are rejected with the table unchanged; every other string succeeds. The result slot reads back the string. A present string returns its last slot and changes nothing; a new one lands at the old size |
| ConstantPools.ConstantPool.AddConstantClass | services/src/main/java/jd/core/model/classfile/ConstantPool.java:231-251 | Fails exactly when reading the name slot throws, with that error and nothing changed; a malformed name only logs. Otherwise the result holds `Class(nameIndex)`: an existing slot, or a new one appended at the old size |
| ConstantPools.ConstantPool.ScanBackwards | services/src/main/java/jd/core/model/classfile/ConstantPool.java:255-269 | The `while (--index > 0)` loop returns the highest slot above 0 holding an equal pair, or 0 |
| ConstantPools.ConstantPool.AddConstantNameAndType | services/src/main/java/jd/core/model/classfile/ConstantPool.java:253-276 | Returns the scan's slot if it found one, and the table is unchanged; otherwise the pair is appended at the old size |
| ConstantPools.ConstantPool.AddConstantFieldref | services/src/main/java/jd/core/model/classfile/ConstantPool.java:278-301 | As for NameAndType, keyed on `(class_index, name_and_type_index)` |
| ConstantPools.ConstantPool.AddConstantMethodref | services/src/main/java/jd/core/model/classfile/ConstantPool.java:303-335 | As for Fieldref. The signatures take no part in the match, so a found entry is returned whatever signatures it carries |
| ConstantPools.AddConstantNameAndTypeTwice | services/src/main/java/jd/core/model/classfile/ConstantPool.java:253-276 | Adding the same pair twice to a pool with its slot 0 returns the same slot, above 0, holding the pair |
| ConstantPools.AddConstantUtf8Twice | services/src/main/java/jd/core/model/classfile/ConstantPool.java:217-228 | Adding the same string twice returns the same slot, which reads back the string |
| LocalVariables.Wrap32 | services/src/main/java/jd/core/model/classfile/LocalVariable.java:79-85 | Java `int` arithmetic: the result is a 32-bit value congruent to the exact one modulo 2^32, and equal to it when it fits |
| LocalVariables.UpdatedRange | services/src/main/java/jd/core/model/classfile/LocalVariable.java:75-87 | For all Java `int` values: the new start is the smaller of `start_pc` and `offset`, the new length is still a Java `int`, and an offset inside the range as Java computes its end changes nothing |
| LocalVariables.UpdatedRangeIsSmallestCover | services/src/main/java/jd/core/model/classfile/LocalVariable.java:75-87 | Without overflow, the new range starts at the smaller of `start_pc` and `offset` and ends at the larger of the old end and `offset + 1` |
| LocalVariables.UpdatedRangeCoversAndWidens | services/src/main/java/jd/core/model/classfile/LocalVariable.java:77-86 | The new range contains `offset` and the whole old range |
| LocalVariables.InsideRangeUnchanged | services/src/main/java/jd/core/model/classfile/LocalVariable.java:77-86 | An offset already inside the range changes nothing |
| LocalVariables.UpdateRangeIdempotent | services/src/main/java/jd/core/model/classfile/LocalVariable.java:77-86 | A second update with the same offset changes nothing |
| LocalVariables.CompareKeys | services/src/main/java/jd/core/model/classfile/LocalVariable.java:112-121 | The result is a Java `int`. For all keys of Java `int` fields it is 0 exactly when the keys are equal, even where a difference wraps |
| LocalVariables.CompareKeysIsLexicographic | services/src/main/java/jd/core/model/classfile/LocalVariable.java:112-121 | Without overflow, the sign of the comparison is the lexicographic order on `(nameIndex, length, start_pc, index)`, and 0 means equal keys |
| LocalVariables.CompareKeysReflexive | services/src/main/java/jd/core/model/classfile/LocalVariable.java:112-121 | A record compares equal to itself, for all values |
| LocalVariables.CompareKeysAntisymmetric | services/src/main/java/jd/core/model/classfile/LocalVariable.java:112-121 | Without overflow, swapping the records flips the sign |
| LocalVariables.OverflowBreaksAntisymmetry | services/src/main/java/jd/core/model/classfile/LocalVariable.java:113 | With name indices `0x7FFFFFFF` and `-1`, each record compares below the other |
| LocalVariables.LocalVariable.constructor | services/src/main/java/jd/core/model/classfile/LocalVariable.java:39-44 | Sets the five given fields. Both flags are false, `typesBitField` is 0, and `toBeRemoved` starts false |
| LocalVariables.LocalVariable.WithTypes | services/src/main/java/jd/core/model/classfile/LocalVariable.java:46-52 | As the short form, with `typesBitField` set from its argument |
| LocalVariables.LocalVariable.WithException | services/src/main/java/jd/core/model/classfile/LocalVariable.java:54-59 | `exceptionOrReturnAddress` and `declarationFlag` both take the given flag; `typesBitField` is 0 |
| LocalVariables.LocalVariable.Full | services/src/main/java/jd/core/model/classfile/LocalVariable.java:61-73 | Every field is set from its argument, and `declarationFlag` equals `exceptionOrReturnAddress` |
| LocalVariables.LocalVariable.UpdateRange | services/src/main/java/jd/core/model/classfile/LocalVariable.java:75-87 | Only `start_pc` and `length` change, to the range `UpdatedRange` describes |
| LocalVariables.LocalVariable.UpdateSignatureIndex | services/src/main/java/jd/core/model/classfile/LocalVariable.java:89-92 | Only the signature index changes, to the given one |
| LocalVariables.LocalVariable.SetToBeRemoved | services/src/main/java/jd/core/model/classfile/LocalVariable.java:124-130 | `isToBeRemoved` then reports the value just set |
| LocalVariables.LocalVariable.CompareTo | services/src/main/java/jd/core/model/classfile/LocalVariable.java:106-122 | Returns -1 against null. Between small keys, the result is negative iff this record's key comes first, and 0 iff the keys are equal |
| MinLineNumber.MinLine | services/src/main/java/jd/core/process/layouter/visitor/MinLineNumberVisitor.java:30-84 | The result is the line number of some node of the instruction tree |
| MinLineNumber.ThroughChild | services/src/main/java/jd/core/process/layouter/visitor/MinLineNumberVisitor.java:34-80 | Following a child's result still yields a line of the whole tree |
| MinLineNumber.NotAMinimum | services/src/main/java/jd/core/process/layouter/visitor/MinLineNumberVisitor.java:34-35 | The result is not a minimum: an array load on line 7 whose index is on line 3 reports 7 |
| MinLineNumber.IncrementsChooseOppositely | services/src/main/java/jd/core/process/layouter/visitor/MinLineNumberVisitor.java:43-68 | With count ±1, PREINC reports its own line and POSTINC its operand's. With any other count it is the other way round |
| MinLineNumber.SecondOperandIgnored | services/src/main/java/jd/core/process/layouter/visitor/MinLineNumberVisitor.java:34-42 | A binary node's result does not depend on its second operand |
| MinLineNumber.BinaryFollowsFirstOperand | services/src/main/java/jd/core/process/layouter/visitor/MinLineNumberVisitor.java:34-42 | ARRAYLOAD, ASSIGNMENT, BINARYOP and PUTFIELD report their first operand's result; IFCMP, which the probe does not name, reports its own line |
| MinLineNumber.ArrayStoreFollowsArrayref | services/src/main/java/jd/core/process/layouter/visitor/MinLineNumberVisitor.java:36-38 | AASTORE and ARRAYSTORE report their array reference's result, whatever the index and value |
| MinLineNumber.UnaryFollowsOnlyInstanceOfAndPop | services/src/main/java/jd/core/process/layouter/visitor/MinLineNumberVisitor.java:69-76 | INSTANCEOF and POP report their operand's result; every other one-operand node reports its own line |
| MinLineNumber.InvokeFollowsObjectref | services/src/main/java/jd/core/process/layouter/visitor/MinLineNumberVisitor.java:71-74 | INVOKEINTERFACE, INVOKEVIRTUAL and INVOKESPECIAL report their object reference's result, whatever the arguments |
| MinLineNumber.TernaryFollowsTest | services/src/main/java/jd/core/process/layouter/visitor/MinLineNumberVisitor.java:79-80 | TERNARYOP reports its test's result; its values never matter |
| MinLineNumber.UnnamedOpcodesReportOwnLine | services/src/main/java/jd/core/process/layouter/visitor/MinLineNumberVisitor.java:83 | Every node of an opcode the switch does not name reports its own line, even one with operands |
| StringIndexOf.StringIndexOfCall | services/src/main/java/jd/core/process/analyzer/classfile/visitor/SetConstantTypeInStringIndexOfMethodsVisitor.java:117-146 | The match test answers true iff all the conditions of `IsStringIndexOfCall` hold: a Methodref on String, one or two arguments, a byte push first, returning `I` with first parameter `I`, named `indexOf` or `lastIndexOf`. A slot outside the pool is an error, and any answer implies a Methodref slot |
| StringIndexOf.Retype | services/src/main/java/jd/core/process/analyzer/classfile/visitor/SetConstantTypeInStringIndexOfMethodsVisitor.java:46-260 | Constants, loads, leaves and opcodes the pass does not name come back as they are, without error |
| StringIndexOf.RetypeSeq | services/src/main/java/jd/core/process/analyzer/classfile/visitor/SetConstantTypeInStringIndexOfMethodsVisitor.java:262-266 | A rewritten list keeps its length |
| StringIndexOf.RetypeKeepsShape | services/src/main/java/jd/core/process/analyzer/classfile/visitor/SetConstantTypeInStringIndexOfMethodsVisitor.java:46-260 | The rewritten tree differs from the input only in IConst signatures: shape, opcodes and every other field are unchanged |
| StringIndexOf.RetypeSeqKeepsShape | services/src/main/java/jd/core/process/analyzer/classfile/visitor/SetConstantTypeInStringIndexOfMethodsVisitor.java:262-266 | The same for lists, element by element |
| StringIndexOf.RetypeOnlyToChar | services/src/main/java/jd/core/process/analyzer/classfile/visitor/SetConstantTypeInStringIndexOfMethodsVisitor.java:46-260 | For every tree and pool: the only signature the pass ever writes is `C`. A constant comes back with its old signature or `C`, and below a node the pass does not descend into nothing changes |
| StringIndexOf.RetypeSeqOnlyToChar | services/src/main/java/jd/core/process/analyzer/classfile/visitor/SetConstantTypeInStringIndexOfMethodsVisitor.java:262-266 | The same for lists, element by element |
| StringIndexOf.FirstArgumentOnlyToChar | services/src/main/java/jd/core/process/analyzer/classfile/visitor/SetConstantTypeInStringIndexOfMethodsVisitor.java:147-149 | Retyping the first argument of a matched call changes only that constant's signature, to `C`; the other arguments stay as they are |
| StringIndexOf.UnmatchedCallKeepsFirstArgument | services/src/main/java/jd/core/process/analyzer/classfile/visitor/SetConstantTypeInStringIndexOfMethodsVisitor.java:124-149 | For all pools and calls: a call that is not a matching INVOKEVIRTUAL with a BIPUSH/SIPUSH first argument keeps a loaded or constant first argument exactly as it is |
| StringIndexOf.RetypeList | services/src/main/java/jd/core/process/analyzer/classfile/visitor/SetConstantTypeInStringIndexOfMethodsVisitor.java:262-266 | The in-place loop over the list completes iff the list rewrite succeeds, leaving exactly its result. Otherwise it reports the exception the list rewrite ends with |
| StringIndexOf.ErrorInSuffixIsReported | services/src/main/java/jd/core/process/analyzer/classfile/visitor/SetConstantTypeInStringIndexOfMethodsVisitor.java:262-266 | Because the list is walked from the end, an exception in a suffix is the exception of the whole list |
| StringIndexOf.EraseKeepsOpcode | services/src/main/java/jd/core/process/analyzer/classfile/visitor/SetConstantTypeInStringIndexOfMethodsVisitor.java:130-135 | Blanking signatures keeps the opcode tests the match relies on |
| StringIndexOf.TestIgnoresSignatures | services/src/main/java/jd/core/process/analyzer/classfile/visitor/SetConstantTypeInStringIndexOfMethodsVisitor.java:124-146 | The match test never reads an argument's signature: arguments that differ only in signatures get the same answer |
| StringIndexOf.MatchRetypesFirstArgumentOnly | services/src/main/java/jd/core/process/analyzer/classfile/visitor/SetConstantTypeInStringIndexOfMethodsVisitor.java:147-149 | On a matching call, the result is the same call with only the first argument's signature set to `C`. Neither the objectref nor the arguments are descended into |
| StringIndexOf.RetypeIdempotent | services/src/main/java/jd/core/process/analyzer/classfile/visitor/SetConstantTypeInStringIndexOfMethodsVisitor.java:124-149 | Running the pass on its own output gives that output back |
| StringIndexOf.RetypeSeqIdempotent | services/src/main/java/jd/core/process/analyzer/classfile/visitor/SetConstantTypeInStringIndexOfMethodsVisitor.java:262-266 | The same for lists |
| StringIndexOf.IndexOfByteConstantRetyped | services/src/main/java/jd/core/process/analyzer/classfile/visitor/SetConstantTypeInStringIndexOfMethodsVisitor.java:117-149 | In a concrete pool, `s.indexOf(BIPUSH 'x')` gets its constant typed `C` |
| StringIndexOf.IndexOfLoadedArgumentKept | services/src/main/java/jd/core/process/analyzer/classfile/visitor/SetConstantTypeInStringIndexOfMethodsVisitor.java:130-135 | The same call with a loaded first argument is left as it is |
| StringIndexOf.ArrayStoreVisitsArrayOnly | services/src/main/java/jd/core/process/analyzer/classfile/visitor/SetConstantTypeInStringIndexOfMethodsVisitor.java:53-56 | An array store rewrites only its array reference; the index and value operands are kept as given |
| StringIndexOf.UnvisitedOpcodesUnchanged | services/src/main/java/jd/core/process/analyzer/classfile/visitor/SetConstantTypeInStringIndexOfMethodsVisitor.java:228-258 | Leaves, constants, loads, unknown opcodes and the ternary come back unchanged and without error |
| LocalVariableUse.UsedIn | services/src/main/java/jd/core/process/analyzer/instruction/fast/visitor/CheckLocalVariableUsedVisitor.java:349-359 | The reverse early-exit list loop answers true iff some element is found to use a late variable |
| LocalVariableUse.UsedInCases | services/src/main/java/jd/core/process/analyzer/instruction/fast/visitor/CheckLocalVariableUsedVisitor.java:278-287 | True iff some non-null case list uses a late variable |
| LocalVariableUse.UsedInCatches | services/src/main/java/jd/core/process/analyzer/instruction/fast/visitor/CheckLocalVariableUsedVisitor.java:295-300 | True iff some catch handler uses a late variable |
| LocalVariableUse.Used | services/src/main/java/jd/core/process/analyzer/instruction/fast/visitor/CheckLocalVariableUsedVisitor.java:35-347 | The walk itself, with no contract of its own. Its properties are the lemmas below: `UsedTransfers`, `UsedMonotone`, `NoLateVariableNoUse`, `NothingFoundNoUse`, and the per-opcode lemmas `ForIgnoresTestAndBody`, `ArrayStoreSkipsArrayref`, `TernarySkipsTest`, `AssertNeverUses` and `StoreOfLateVariableUsed` |
| LocalVariableUse.UsedTransfers | services/src/main/java/jd/core/process/analyzer/instruction/fast/visitor/CheckLocalVariableUsedVisitor.java:35-347 | The answer is monotone in the qualifying test. If every load or store that qualifies under one lookup and bound qualifies under another, a true answer under the first stays true under the second |
| LocalVariableUse.UsedInTransfers | services/src/main/java/jd/core/process/analyzer/instruction/fast/visitor/CheckLocalVariableUsedVisitor.java:349-359 | The same for lists |
| LocalVariableUse.UsedMonotone | services/src/main/java/jd/core/process/analyzer/instruction/fast/visitor/CheckLocalVariableUsedVisitor.java:64-83 | True for `maxOffset` implies true for every smaller `maxOffset` |
| LocalVariableUse.NoLateVariableNoUse | services/src/main/java/jd/core/process/analyzer/instruction/fast/visitor/CheckLocalVariableUsedVisitor.java:64-83 | If every variable found starts before `maxOffset`, the answer is false for every tree |
| LocalVariableUse.NothingFoundNoUse | services/src/main/java/jd/core/process/analyzer/instruction/fast/visitor/CheckLocalVariableUsedVisitor.java:64-83 | If the lookup never finds a variable, the answer is false for every tree |
| LocalVariableUse.ForIgnoresTestAndBody | services/src/main/java/jd/core/process/analyzer/instruction/fast/visitor/CheckLocalVariableUsedVisitor.java:232-236 | A FOR loop's answer depends only on its init and increment; without both it is false |
| LocalVariableUse.ArrayStoreSkipsArrayref | services/src/main/java/jd/core/process/analyzer/instruction/fast/visitor/CheckLocalVariableUsedVisitor.java:43-48 | An array store is decided by its index and value operands alone; its array reference is never looked at |
| LocalVariableUse.TernarySkipsTest | services/src/main/java/jd/core/process/analyzer/instruction/fast/visitor/CheckLocalVariableUsedVisitor.java:202-206 | A ternary operator is decided by its two values alone; its test is never looked at |
| LocalVariableUse.AssertNeverUses | services/src/main/java/jd/core/process/analyzer/instruction/fast/visitor/CheckLocalVariableUsedVisitor.java:339-344 | An assert node, an opcode the visit does not name, answers false, whatever it contains |
| LocalVariableUse.StoreOfLateVariableUsed | services/src/main/java/jd/core/process/analyzer/instruction/fast/visitor/CheckLocalVariableUsedVisitor.java:74-83 | A store to a variable whose range starts at or after `maxOffset` is a use, and a load of an early one is not |
| MavenSourceLoader.Hexa | services/src/main/java/org/jdv1/gui/service/sourceloader/MavenOrgSourceLoaderProvider.java:269 | Every nibble maps to a lower-case hex digit, a decimal digit exactly for 0-9 |
| MavenSourceLoader.HexaRoundTrip | services/src/main/java/org/jdv1/gui/service/sourceloader/MavenOrgSourceLoaderProvider.java:269 | The digit reads back as the nibble it encodes, so the encoding is one-to-one |
| MavenSourceLoader.HexString | services/src/main/java/org/jdv1/gui/service/sourceloader/MavenOrgSourceLoaderProvider.java:141-148 | The digest string has two characters per byte |
| MavenSourceLoader.ByteRoundTrip | services/src/main/java/org/jdv1/gui/service/sourceloader/MavenOrgSourceLoaderProvider.java:144-145 | The high and low nibbles of a signed Java byte, taken as `(b & 255) >> 4` and `b & 15`, rebuild the byte |
| MavenSourceLoader.HexStringDigits | services/src/main/java/org/jdv1/gui/service/sourceloader/MavenOrgSourceLoaderProvider.java:141-148 | Every character of the digest string is a lower-case hex digit |
| MavenSourceLoader.HexStringRoundTrip | services/src/main/java/org/jdv1/gui/service/sourceloader/MavenOrgSourceLoaderProvider.java:141-148 | Decoding the digest string, high nibble first, gives back the digest |
| MavenSourceLoader.DigestToHex | services/src/main/java/org/jdv1/gui/service/sourceloader/MavenOrgSourceLoaderProvider.java:141-148 | The `StringBuilder` loop builds exactly the digest string |
| MavenSourceLoader.Tokens | services/src/main/java/org/jdv1/gui/service/sourceloader/MavenOrgSourceLoaderProvider.java:273-276 | Every token of the filter string is non-empty and free of delimiters; `TokensKeepCharacters`, `TokensOfWord` and `TokensSplitAtDelimiter` tie them to the input |
| MavenSourceLoader.TokensKeepCharacters | services/src/main/java/org/jdv1/gui/service/sourceloader/MavenOrgSourceLoaderProvider.java:273-276 | No character is lost or reordered: the tokens written one after the other are the filter string without its delimiters |
| MavenSourceLoader.TokensOfWord | services/src/main/java/org/jdv1/gui/service/sourceloader/MavenOrgSourceLoaderProvider.java:273-276 | A non-empty run without delimiters is one token |
| MavenSourceLoader.TokensSplitAtDelimiter | services/src/main/java/org/jdv1/gui/service/sourceloader/MavenOrgSourceLoaderProvider.java:273-276 | No token spans a delimiter: the tokens of `s`, a delimiter, `t` are the tokens of `s` followed by those of `t` |
| MavenSourceLoader.TokensOfJoined | services/src/main/java/org/jdv1/gui/service/sourceloader/MavenOrgSourceLoaderProvider.java:273-276 | Non-empty, delimiter-free tokens joined by spaces split back into the same tokens |
| MavenSourceLoader.Replace | services/src/main/java/org/jdv1/gui/service/sourceloader/MavenOrgSourceLoaderProvider.java:280 | `replace('.', '/')` keeps the length and swaps exactly the matching characters |
| MavenSourceLoader.FilterPrefix | services/src/main/java/org/jdv1/gui/service/sourceloader/MavenOrgSourceLoaderProvider.java:280-284 | The prefix is the text after the sign with `.` turned into `/`, and it always ends in `/` |
| MavenSourceLoader.AcceptedBy | services/src/main/java/org/jdv1/gui/service/sourceloader/MavenOrgSourceLoaderProvider.java:271-293 | True exactly when some token matches the path, no earlier token matches, and that token starts with `+` |
| MavenSourceLoader.Accepted | services/src/main/java/org/jdv1/gui/service/sourceloader/MavenOrgSourceLoaderProvider.java:271-293 | The tokenizer loop returns exactly the first-match decision over the tokens |
| MavenSourceLoader.FirstMatchDecides | services/src/main/java/org/jdv1/gui/service/sourceloader/MavenOrgSourceLoaderProvider.java:276-289 | The first token longer than one character whose prefix the path starts with decides: `+` accepts, any other sign rejects |
| MavenSourceLoader.NoMatchRejects | services/src/main/java/org/jdv1/gui/service/sourceloader/MavenOrgSourceLoaderProvider.java:292 | If no token matches, the path is rejected |
| MavenSourceLoader.ShortTokensIgnored | services/src/main/java/org/jdv1/gui/service/sourceloader/MavenOrgSourceLoaderProvider.java:279 | Removing a token of length one or less never changes the decision |
| MavenSourceLoader.EarlierFilterWins | services/src/main/java/org/jdv1/gui/service/sourceloader/MavenOrgSourceLoaderProvider.java:286-288 | With `+com.google -com`, `com/google/Foo.class` is accepted and `com/foo/Bar.class` rejected |
| MavenSourceLoader.SplitId | services/src/main/java/org/jdv1/gui/service/sourceloader/MavenOrgSourceLoaderProvider.java:203-210 | A split id re-joins with `:` to the input; the group and version hold no `:` |
| MavenSourceLoader.SplitIdRoundTrip | services/src/main/java/org/jdv1/gui/service/sourceloader/MavenOrgSourceLoaderProvider.java:203-210 | Joining a group and a version free of `:` with any artifact splits back into the same three parts |
| MavenSourceLoader.SplitIdAt | services/src/main/java/org/jdv1/gui/service/sourceloader/MavenOrgSourceLoaderProvider.java:205-210 | With its first `:` at `i` and its last at a later `j`, an id splits into the text before `i`, between the two, and after `j` |
| MavenSourceLoader.FewerThanTwoColonsRefused | services/src/main/java/org/jdv1/gui/service/sourceloader/MavenOrgSourceLoaderProvider.java:205-210 | An id with no `:` or a single one is not split |
| MavenSourceLoader.SourceJarPath | services/src/main/java/org/jdv1/gui/service/sourceloader/MavenOrgSourceLoaderProvider.java:214 | The path starts with the dotted group as directories, then the artifact and version directories, ends in `artifact-version`, and has exactly the length of those parts and their four separators |
| MavenSourceLoader.JavaSourceName | services/src/main/java/org/jdv1/gui/service/sourceloader/MavenOrgSourceLoaderProvider.java:104 | A name exists iff the entry path has at least six characters. It keeps all but the last six and is one character shorter |
| MavenSourceLoader.ClassEntryToJavaName | services/src/main/java/org/jdv1/gui/service/sourceloader/MavenOrgSourceLoaderProvider.java:104 | `X.class` becomes `X.java` |
| MavenSourceLoader.SourceJarCache.constructor | services/src/main/java/org/jdv1/gui/service/sourceloader/MavenOrgSourceLoaderProvider.java:52-53 | The cache and the failure set start empty |
| MavenSourceLoader.SourceJarCache.DownloadSourceJarFile | services/src/main/java/org/jdv1/gui/service/sourceloader/MavenOrgSourceLoaderProvider.java:123-234 | A cached entry is returned with nothing changed. A fetched file is cached and returned. A directory, an entry that failed before, or a failed fetch is added to the failure set and yields nothing |
| MavenSourceLoader.FailedEntryNotRetried | services/src/main/java/org/jdv1/gui/service/sourceloader/MavenOrgSourceLoaderProvider.java:123-234 | Once an uncached entry has failed, a second request yields nothing even when the fetch would now succeed |
| JavaStrings.IndexOf | services/src/main/java/org/jdv1/gui/service/sourceloader/MavenOrgSourceLoaderProvider.java:205 | `indexOf` returns the first position holding the character, or -1 exactly when there is none |
| JavaStrings.LastIndexOf | services/src/main/java/org/jdv1/gui/service/indexer/JavaFileIndexerProvider.java:192 | `lastIndexOf` returns the last position holding the character, or -1 exactly when there is none |
| JavaFileIndexer.Entered | services/src/main/java/org/jdv1/gui/service/indexer/JavaFileIndexerProvider.java:151-157 | The result extends the builder and ends in the name. It is one character longer than the two together exactly when the builder is non-empty and does not end in `/`, and that character is `$` |
| JavaFileIndexer.ExitLength | services/src/main/java/org/jdv1/gui/service/indexer/JavaFileIndexerProvider.java:192-202 | The cut lies inside the builder, so the `-1` case never arises. It is at the last `$` if there is one, else just after the last `/` (or at 0) |
| JavaFileIndexer.Exited | services/src/main/java/org/jdv1/gui/service/indexer/JavaFileIndexerProvider.java:191-203 | The builder is cut to a prefix. With a `$` in it, the part removed starts at the last `$`. Without one, the part removed holds no `/` and what is kept is empty or ends in `/` |
| JavaFileIndexer.EnterThenExitRestores | services/src/main/java/org/jdv1/gui/service/indexer/JavaFileIndexerProvider.java:150-203 | Entering a type whose name holds no `$` or `/`, then leaving it, restores the builder, unless a `$` lies before a trailing `/` |
| JavaFileIndexer.EnterKeepsRestorable | services/src/main/java/org/jdv1/gui/service/indexer/JavaFileIndexerProvider.java:150-157 | Entering keeps that condition, so nested types unwind in order |
| JavaFileIndexer.DollarInPackageNotRestored | services/src/main/java/org/jdv1/gui/service/indexer/JavaFileIndexerProvider.java:191-203 | With the package `a$b`, leaving type `C` cuts the builder to `a` instead of `a$b/` |
| JavaFileIndexer.KeptSuperTypes | services/src/main/java/org/jdv1/gui/service/indexer/JavaFileIndexerProvider.java:163-183 | The super types kept are exactly the resolved names not starting with `*` |
| JavaFileIndexer.Listener.constructor | services/src/main/java/org/jdv1/gui/service/indexer/JavaFileIndexerProvider.java:79-91 | All sets and maps start empty, and so does the builder |
| JavaFileIndexer.Listener.VisitPackage | services/src/main/java/org/jdv1/gui/service/indexer/JavaFileIndexerProvider.java:139-145 | A handled, non-empty package name is appended with a `/`; otherwise nothing changes. Children are always visited |
| JavaFileIndexer.Listener.EnterTypeDeclaration | services/src/main/java/org/jdv1/gui/service/indexer/JavaFileIndexerProvider.java:147-188 | The builder becomes `Entered(old, name)`, and that internal name joins the declared types and the name map. The kept super types are recorded under it only when there is at least one |
| JavaFileIndexer.Listener.ExitTypeDeclaration | services/src/main/java/org/jdv1/gui/service/indexer/JavaFileIndexerProvider.java:190-203 | The builder is cut to `ExitLength` |
| JavaFileIndexer.Listener.VisitMethodDeclaration | services/src/main/java/org/jdv1/gui/service/indexer/JavaFileIndexerProvider.java:226-234 | The name joins the constructor set iff it is a constructor, otherwise the method set; the other set is unchanged |
| JavaFileIndexer.AddSubTypeNames | services/src/main/java/org/jdv1/gui/service/indexer/JavaFileIndexerProvider.java:66-76 | Afterwards `t` is listed under `s` iff it was before or `t` declares `s` as a super type: the index inverts the super-type map |
| JavaFileIndexer.AddUnderEach | services/src/main/java/org/jdv1/gui/service/indexer/JavaFileIndexerProvider.java:73-75 | The inner loop lists the type under each of its super types and changes nothing else |

## Left out

- **Swing UI, executors, network, zip, XML, temporary files and the SHA-1 digest** are left out. The digest is a parameter of `DigestToHex`, and the downloaded file is the `fetched` parameter of `DownloadSourceJarFile`.
- **The JDT parser and name resolution:**
  - `resolveInternalTypeName` and the parser that drives the listener are not part of this model.
  - The resolved super-type names are a parameter of `EnterTypeDeclaration`.
  - So is the base listener's answer and package name in `VisitPackage`.
- **The local-variable lookup:** `getLocalVariableWithIndexAndOffset` is not part of this model. Its answer, the start of the variable found, is a function parameter (`Lookup`).
- **Code the retyping pass calls but that is not shown:**
  - The String class-name slot is a parameter (`stringNameIndex`). `getStringClassNameIndex` is not declared by the pool's class.
  - The parameter and return signatures come from the Methodref entry the model carries.
- **Diagnostics on `System.err`** are no-ops:
  - `addConstantClass` on a malformed name;
  - unknown opcodes in the three passes.
- **Other listener visits:** field declarations, type, constructor, method and field references, and strings are not modelled. Neither are `addToIndexes` nor the sets they feed.
- **Pool operations not modelled:**
  - `size` is `|constants|`;
  - the InterfaceMethodref, Integer and Value getters are covered only by the shared cast rule in `CastAt`;
  - the two-argument `addConstantMethodref` is `AddConstantMethodref` with both signatures `None`.
- **Aliasing in the instruction tree:** the tree is a value, so nodes shared between parents are not modelled.
- **The default filter list** (`DEFAULT_FILTERS_VALUE`) and the preference lookup are not part of this model. The filter string is a parameter.
- **The 29 add calls** of the pool constructor are issued by loops over `WellKnownNames`: the same adds in the same order. The fact that entries after the input are only the well-known names is not stated.
- **Weakened or partial contracts:**
  - `ConstantPools.ConstantPool.constructor` records slots for the well-known names but does not state that they are appended only when absent; each add's own contract says so.
  - `MinLineNumber.MinLine` states only that the result is some line of the tree, not which node along the first-operand spine gives it. The per-opcode behaviour is stated by the lemmas beside it, one per opcode group, from `BinaryFollowsFirstOperand` to `UnnamedOpcodesReportOwnLine`.
  - `StringIndexOf.Retype` models the pass on values. An exception part-way through discards the rewrites already made in that subtree, whereas the in-place source keeps them.
  - `StringIndexOf.RetypeList`: after an exception, the array's contents are not specified.
  - `MavenSourceLoader.Hexa` is defined only on 0-15, the values its two call sites pass.
  - `LocalVariables.UpdatedRangeIsSmallestCover`, `UpdatedRangeCoversAndWidens` and `UpdateRangeIdempotent` hold only for values below 2^30. Class files keep offsets below 2^16. Beyond that, the source's `int` arithmetic can wrap.
  - `LocalVariables.CompareKeysIsLexicographic`, `CompareKeysAntisymmetric` and `LocalVariable.CompareTo` hold only for keys below 2^30. `OverflowBreaksAntisymmetry` shows what goes wrong outside that range.
  - `JavaFileIndexer.Listener.EnterTypeDeclaration` requires the resolved super-type names to be non-empty. The source reads their first character and would throw on an empty one.
  - `JavaFileIndexer.SubTypesOf` reads a missing key as an empty set. The source calls `add` on whatever the `subTypeNames` index returns for the key, so it relies on an `Indexes` implementation that is not part of this model and that yields a collection for a missing key; a plain `Map` would throw a null-pointer exception there. The index's collections are sets, so their order and duplicates are not modelled.
  - `MavenSourceLoader.JavaSourceName` returns `None` for a path shorter than six characters. In the source, that `substring` exception propagates out of `searchSource`, which catches only `IOException`.
