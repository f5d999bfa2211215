# Bionic syscall stub generator and system property area, in Dafny

This project models two pieces of Android's C library, bionic.

**gensyscalls.py** turns the syscall table into assembly stubs:

- It decides which parameter types are 64-bit scalars.
- It counts the argument registers a parameter list needs. There are three rules: the generic 32-bit rule, the ARM EABI even-register rule (section 5.5 rule C.3 of the Procedure Call Standard for the Arm Architecture) and the native 64-bit rule.
- It builds one stub per architecture (ARM, MIPS, x86 with its socketcall variant, x86-64) and appends the row's aliases.
- It writes the stubs and one makefile fragment per architecture to a staging area.
- It plans which files to add, edit and delete in the source tree.

**system_properties.c** holds the property area. This is a fixed-capacity, append-only table of (name, value) slots. It supports add, find, find_nth, update, read, get and serial, plus the argument checks of set.

Modules:

| file | module | models |
|---|---|---|
| `wrappers.dfy` | `Wrappers` | `Option` and `Result` |
| `syscall_layout.dfy` | `SyscallLayout` | `param_uses_64bits`; the three register counters, each as a specification function plus the tool's loop proved equal to it |
| `stub_text.dfy` | `StubText` | `%`-templates; `"%d"`; the instruction lines the x86 builders emit |
| `syscall_stubs.dfy` | `SyscallStubs` | the per-architecture stub builders, `make__NR_name`, `add_aliases` |
| `stub_semantics.dfy` | `StubSemantics` | a small machine that runs the x86 and x86-64 set-up and tear-down lines, so the calling-convention promises can be proved |
| `syscall_sync.dfy` | `SyscallSync` | the add/edit/delete plan of `regenerate` and the tree it leaves |
| `gensyscalls_state.dfy` | `GenSyscalls` | the `State` object: `process_file`, `gen_glibc_syscalls_h`, `gen_arch_syscalls_mk`, `gen_syscall_stubs`, `regenerate`; the script's top level |
| `system_properties.dfy` | `SystemProperties` | the `PropArea` class and `__system_property_set`'s checks |
| `system_properties_scenarios.dfy` | `SystemPropertiesScenarios` | the scenarios of bionic's property tests, stated as contracts and proved |

Behaviour of the code a reader might not expect:

- **A dry run still copies new files.** During the comparison, `regenerate` copies every new file into the tree even in a dry run (`gensyscalls.py:423`). Only git, the edits and the deletions wait for a real run. `SyscallSync.Apply` and `SyscallSync.DryRunCopiesAdds` state this.
- **Two failures end the script.**
  - A row with a socketcall id but no x86 stub reaches an error call that names an undefined variable (`gensyscalls.py:315`).
  - An x86 row needing more than six argument words indexes the six-entry register table past its end (`gensyscalls.py:230`).
  - Both raise an exception that nothing catches, so the script stops inside `process_file` and `regenerate` never runs (`gensyscalls.py:454-456`).
  - The model returns `Err(SocketcallNotOnX86)` and `Err(TooManyX86Params)` for the row, and keeps what the row had generated so far. `State.ProcessFile` then sets the ghost flag `aborted`, and `State.Regenerate` requires it to be clear. `GenSyscalls.Run` stops after a failing `ProcessFile` and leaves the tree as it was.

## Model

| member | source | states |
|---|---|---|
| `SyscallLayout.Uses64Iff` | libc/tools/gensyscalls.py:134-152 | a parameter is 64-bit iff its stripped text starts with one of the seven 64-bit spellings and it contains no `*` anywhere |
| `SyscallLayout.Uses64IgnoresPadding` | libc/tools/gensyscalls.py:137 | whitespace added before or after a type never changes whether it is 64-bit |
| `SyscallLayout.StripIgnoresPadding` | libc/tools/gensyscalls.py:137 | `strip()` gives the same text with or without one more whitespace character at either end |
| `SyscallLayout.Uses64Examples` | libc/tools/gensyscalls.py:140-152 | `off64_t`, `int64_t` and `loff_t offset` count as 64-bit |
| `SyscallLayout.Uses32Examples` | libc/tools/gensyscalls.py:140-152 | `int`, the pointer `int64_t*` and the qualified `const int64_t` do not count as 64-bit |
| `SyscallLayout.GenericCount` | libc/tools/gensyscalls.py:180-187 | the generic count is the number of parameters plus the number of 64-bit ones |
| `SyscallLayout.Generic64Count` | libc/tools/gensyscalls.py:190-194 | the 64-bit count is the number of parameters |
| `SyscallLayout.ArmCount` | libc/tools/gensyscalls.py:155-177 | the ARM count lies between the generic count and the generic count plus one pad per 64-bit parameter |
| `SyscallLayout.ArmLayout` | libc/tools/gensyscalls.py:155-177 | parameter i starts right after the registers before it (at most one pad), ends where the count of the first i+1 parameters ends, and stays inside the total; a 64-bit parameter starts at an even register, any other one with no pad |
| `SyscallLayout.ArmCountNoPadWhenAligned` | libc/tools/gensyscalls.py:169-177 | when every 64-bit parameter already starts even, the ARM count equals the generic count |
| `SyscallLayout.ArmCountExamples` | libc/tools/gensyscalls.py:158-168 | `(int, off64_t)` takes four registers (r1 unused), as the tool's documentation says; further small layouts |
| `SyscallLayout.CountGenericParamRegisters` | libc/tools/gensyscalls.py:180-187 | the tool's loop returns the generic count |
| `SyscallLayout.CountGenericParamRegisters64` | libc/tools/gensyscalls.py:190-194 | the tool's loop returns the 64-bit count |
| `SyscallLayout.CountArmParamRegisters` | libc/tools/gensyscalls.py:169-177 | the tool's loop returns the ARM count |
| `StubText.DecimalRoundTrip` | libc/tools/gensyscalls.py:234 | `"%d" % n` is a nonempty string of digits, without a leading zero, that reads back as n |
| `SyscallStubs.MakeNrName` | libc/tools/gensyscalls.py:199-203 | the symbol always starts with `__`; it is the name itself iff the name starts with `__`, otherwise `__NR_` plus the name |
| `SyscallStubs.MakeNrNameIdempotent` | libc/tools/gensyscalls.py:199-203 | making the symbol of a symbol changes nothing |
| `SyscallStubs.AliasBlocksAppend` | libc/tools/gensyscalls.py:206-210 | the alias text of two concatenated alias lists is the concatenation of their alias texts |
| `SyscallStubs.AddAliases` | libc/tools/gensyscalls.py:206-210 | the result is the stub followed by one `.globl`/`.equ` block per alias, in order |
| `SyscallStubs.ArmEabiGenstub` | libc/tools/gensyscalls.py:213-217 | the ARM stub is the ARM header followed by the body that branches to the long-call trampoline iff more than four registers are needed |
| `SyscallStubs.ArmEabiTailText` | libc/tools/gensyscalls.py:48-58 | the ARM body loads the number symbol into ip, branches to the trampoline and closes the function, character for character |
| `SyscallStubs.MipsFuncHoles` | libc/tools/gensyscalls.py:65-87 | the MIPS template names the function four times (`.globl`, `.ent`, the label, `.end`) |
| `SyscallStubs.MipsNrHoles` | libc/tools/gensyscalls.py:65-87 | the MIPS template names the number symbol once |
| `SyscallStubs.MipsGenstubLength` | libc/tools/gensyscalls.py:220-221 | the MIPS stub is the fixed text plus four copies of the function name and one of the number symbol |
| `SyscallStubs.EmitPushes` | libc/tools/gensyscalls.py:229-231 | the push loop writes one `pushl` line per argument register, in order |
| `SyscallStubs.EmitLoads` | libc/tools/gensyscalls.py:233-234 | the load loop writes one `mov` line per argument register, from the offset the stack bias gives |
| `SyscallStubs.EmitPops` | libc/tools/gensyscalls.py:238-239 | the pop loop writes one `popl` line per argument register, last saved first |
| `SyscallStubs.X86Genstub` | libc/tools/gensyscalls.py:224-242 | up to six argument words give the header, pushes, loads, call, pops and return in that order; more than six give `TooManyX86Params` |
| `SyscallStubs.X86Shape` | libc/tools/gensyscalls.py:229-239 | line r of the set-up pushes register r, line n+r loads register r from 4+4n+4r, and pop r restores register n-1-r |
| `SyscallStubs.X86_64RemapIff` | libc/tools/gensyscalls.py:278-286 | the x86-64 stub copies %rcx to %r10 iff the function has more than three parameters, and adds no other line |
| `StubSemantics.X86StubPassesArguments` | libc/tools/gensyscalls.py:224-234 | after the x86 set-up, argument word j is in the j-th kernel argument register and the stack is n words lower |
| `StubSemantics.X86StubSavesRegisters` | libc/tools/gensyscalls.py:229-231 | after the set-up, the word 4(j+1) bytes below the entry stack pointer holds register j's entry value |
| `StubSemantics.PopsRestore` | libc/tools/gensyscalls.py:238-239 | popping n saved words gives each argument register its saved value and raises the stack by n words |
| `StubSemantics.X86StubRestoresRegisters` | libc/tools/gensyscalls.py:224-242 | if the kernel returns the stack pointer and leaves the saved words alone, the tear-down gives every borrowed register its entry value and returns the stack to the caller's |
| `StubSemantics.SocketcallPassesVector` | libc/tools/gensyscalls.py:250-264 | after the socketcall set-up, %ebx holds the dispatch id and %ecx the address of the caller's first argument; the two borrowed registers are on the stack |
| `StubSemantics.SocketcallRestores` | libc/tools/gensyscalls.py:269-271 | the socketcall tear-down restores %ecx then %ebx from the two saved words and raises the stack by two words |
| `StubSemantics.X86_64PassesArguments` | libc/tools/gensyscalls.py:278-286 | after the x86-64 fix-up, each kernel argument register holds the C argument of the same position |
| `StubSemantics.SocketcallStub` | libc/tools/gensyscalls.py:244-275 | the socketcall stub is the x86 frame around the set-up with bias 12 and the two pops; on entry to the kernel %ebx holds the dispatch id and %ecx the address of the caller's first argument; if the kernel leaves the stack pointer and the saved words alone, the tear-down gives back %ebx, %ecx and the caller's stack pointer |
| `StubSemantics.X86_64GenstubShape` | libc/tools/gensyscalls.py:278-286 | the x86-64 stub is the header, then the register fix-up for the number of parameters, then the fixed call |
| `StubSemantics.X86_64Stub` | libc/tools/gensyscalls.py:280-283 | the fix-up is the line `movq %rcx, %r10` exactly when there are more than three parameters, and nothing otherwise; after it each kernel argument register holds the C argument of the same position |
| `SyscallSync.CompareClassifies` | libc/tools/gensyscalls.py:414-427 | a path is an add iff it is staged and missing from the tree, an edit iff it is staged and present with other content; afterwards the tree has every staged path, keeping old content and taking staged content for adds |
| `SyscallSync.AddsDistinct` | libc/tools/gensyscalls.py:418-423 | no path is added twice, even if the staged list repeats it |
| `SyscallSync.CompareUpToDate` | libc/tools/gensyscalls.py:414-427 | a tree that already holds every staged file gives no adds and no edits and stays as it is |
| `SyscallSync.ComparePaths` | libc/tools/gensyscalls.py:414-427 | the comparison loop computes the adds, edits and tree of the classification |
| `SyscallSync.DeletesIff` | libc/tools/gensyscalls.py:429-433 | a path is deleted iff it is a stub found in the tree and not a stub just generated |
| `SyscallSync.DeletesNone` | libc/tools/gensyscalls.py:429-433 | nothing is deleted when every stub found is generated again |
| `SyscallSync.FindDeletes` | libc/tools/gensyscalls.py:429-433 | the deletion loop computes the deletions |
| `SyscallSync.Sync` | libc/tools/gensyscalls.py:414-445 | the comparison and deletion loops and the tree changes give the plan and tree of the comparison and deletion rules |
| `SyscallSync.ApplySyncs` | libc/tools/gensyscalls.py:435-445 | after a real run, every staged path is in the tree with its staged content, and every stub no longer generated is gone |
| `SyscallSync.RerunFindsNoChanges` | libc/tools/gensyscalls.py:414-445 | running again on the tree a real run left gives no adds and no edits |
| `SyscallSync.DryRunCopiesAdds` | libc/tools/gensyscalls.py:418-437 | a dry run leaves the adds copied into the tree and every file already there untouched |
| `GenSyscalls.StubPathInjective` | libc/tools/gensyscalls.py:381 | two stub files have the same path only for the same architecture and function |
| `GenSyscalls.MkPathIsNotStubPath` | libc/tools/gensyscalls.py:364 | no makefile fragment path has the shape of a stub path |
| `GenSyscalls.GlibcPathIsNotGenerated` | libc/tools/gensyscalls.py:340 | the glibc header path is neither a stub path nor a makefile fragment path |
| `GenSyscalls.MkPathInjective` | libc/tools/gensyscalls.py:364 | distinct architectures have distinct makefile fragment paths |
| `GenSyscalls.GenEntryFails` | libc/tools/gensyscalls.py:303-316 | a row fails iff it has a socketcall id without an x86 stub, or needs more than six x86 words without a socketcall id; the error names which |
| `GenSyscalls.GenEntryStubs` | libc/tools/gensyscalls.py:303-322 | a row that succeeds gets its number symbol and exactly one stub per architecture it lists |
| `GenSyscalls.GenerateX86` | libc/tools/gensyscalls.py:309-313 | the x86 step fails exactly as the row gating says, and otherwise gives the socketcall stub or the plain stub, with aliases |
| `GenSyscalls.GenerateEntry` | libc/tools/gensyscalls.py:303-322 | the per-row steps, in the source's order, give the row's stubs, or stop at the row's error keeping only the ARM stub made before it |
| `GenSyscalls.EntryStubPathsIff` | libc/tools/gensyscalls.py:379-386 | a row writes a path iff the path is the stub path of one of the row's architectures |
| `GenSyscalls.WriteEntryStubsFacts` | libc/tools/gensyscalls.py:379-386 | writing a row's stubs gives each of its stub paths that stub and leaves every other path as it was |
| `GenSyscalls.WriteStubsFacts` | libc/tools/gensyscalls.py:377-386 | when no two rows with a stub for an architecture share a function name, each row's stub path for that architecture holds that row's stub |
| `GenSyscalls.StubPathsAreStubs` | libc/tools/gensyscalls.py:381 | every path `gen_syscall_stubs` records has the stub shape |
| `GenSyscalls.WriteStubsFrame` | libc/tools/gensyscalls.py:377-386 | writing the stubs adds exactly the rows' stub paths and leaves every other path's content alone |
| `GenSyscalls.MkSourcesIff` | libc/tools/gensyscalls.py:363-373 | an architecture's makefile fragment lists a path iff some row has a stub for that architecture at that path |
| `GenSyscalls.MkSourcesAreStubs` | libc/tools/gensyscalls.py:363-386 | every file the makefile fragment lists is a stub that `gen_syscall_stubs` writes |
| `GenSyscalls.WriteMksFacts` | libc/tools/gensyscalls.py:410-411 | writing the fragments of some architectures gives each its header and source lines and leaves every other path alone |
| `GenSyscalls.RegeneratedStagingFacts` | libc/tools/gensyscalls.py:409-412 | after `regenerate` stages its files, the glibc header path holds the header text, each fragment path its fragment, every stub path is staged, and every other path is as before |
| `GenSyscalls.FreshStaging` | libc/tools/gensyscalls.py:409-412 | a run from a fresh state stages every path it records |
| `GenSyscalls.RerunIsNoOp` | libc/tools/gensyscalls.py:389-445 | running `regenerate` again on the tree a real run left, with that tree's stubs as the stubs found, plans no add, no edit and no delete and leaves the tree unchanged |
| `GenSyscalls.Run` | libc/tools/gensyscalls.py:454-456 | the script either stops at the first failing row with the tree untouched, or produces the plan and tree of a fresh state's `regenerate` on the processed table |
| `GenSyscalls.RunTwiceIsNoOp` | libc/tools/gensyscalls.py:389-456 | running the script a second time on the tree the first real run left plans no add, no edit and no delete and changes nothing |
| `GenSyscalls.State.constructor` | libc/tools/gensyscalls.py:290-294 | a new state has empty lists and an empty staging area |
| `GenSyscalls.State.GenGlibcSyscallsH` | libc/tools/gensyscalls.py:338-359 | the header text is staged at its path and the path recorded among the other files |
| `GenSyscalls.State.ProcessFile` | libc/tools/gensyscalls.py:297-322 | every row gets its stubs; otherwise processing stops at the first failing row, which keeps the ARM stub it made, later rows stay unprocessed, and the state is marked aborted; nothing else changes |
| `GenSyscalls.State.GenArchSyscallsMk` | libc/tools/gensyscalls.py:363-373 | the staged fragment is the header plus one `syscall_src +=` line per row with a stub for the architecture; its path is recorded |
| `GenSyscalls.State.StageEntry` | libc/tools/gensyscalls.py:379-386 | one row's stubs are staged and their paths recorded, in architecture order |
| `GenSyscalls.State.GenAllSyscallsMk` | libc/tools/gensyscalls.py:410-411 | the fragment of every architecture is staged, in order, and their paths recorded |
| `GenSyscalls.State.GenSyscallStubs` | libc/tools/gensyscalls.py:377-386 | every row's stubs are staged and their paths recorded, row by row |
| `GenSyscalls.State.Regenerate` | libc/tools/gensyscalls.py:389-450 | runs only after a successful `process_file`, with the stubs found being exactly the tree's stub-shaped files; records them; stages the glibc header, then each architecture's fragment, then every stub, recording their paths; the plan and the resulting tree are those of the comparison and deletion rules over these lists |
| `SystemProperties.TocRoundTrip` | libc/bionic/system_properties.c:376-377 | a table-of-contents entry fits in 32 bits and decodes to the name length and place it was built from |
| `SystemProperties.UpdatedSerialFacts` | libc/bionic/system_properties.c:344-346 | the serial an update writes fits in 32 bits, is clean, carries the new length, and differs from the old serial |
| `SystemProperties.AddedSerialFacts` | libc/bionic/system_properties.c:372 | the serial add writes is clean and carries the value length |
| `SystemProperties.LookupInSpec` | libc/bionic/system_properties.c:173-197 | lookup returns the first place holding the name, and nothing iff no place holds it |
| `SystemProperties.LookupAppend` | libc/bionic/system_properties.c:371-379 | adding a property keeps every lookup that succeeded, and a name not found before is found at the new place iff it is the new name |
| `SystemProperties.LookupIgnoresValues` | libc/bionic/system_properties.c:337-353 | rewriting values keeps every lookup |
| `SystemProperties.LookupPrefix` | libc/bionic/system_properties.c:186-193 | a match found in the first k entries is the match in the whole table |
| `SystemProperties.PropArea.constructor` | libc/bionic/system_properties.c:89-98 | a new area is empty and zeroed |
| `SystemProperties.PropArea.FindNth` | libc/bionic/system_properties.c:162-171 | find_nth returns nothing iff n is not below the count, and otherwise the n-th slot |
| `SystemProperties.PropArea.Find` | libc/bionic/system_properties.c:173-197 | find returns nothing for an empty name or one of PROP_NAME_MAX characters or more, and otherwise the first slot with that name |
| `SystemProperties.PropArea.EntryMatches` | libc/bionic/system_properties.c:186-191 | find's length-then-`memcmp` test on a slot holds iff the slot's name is the one sought |
| `SystemProperties.PropArea.Read` | libc/bionic/system_properties.c:199-218 | read returns the slot's value length and the value with the byte after it |
| `SystemProperties.PropArea.SlotSerial` | libc/bionic/system_properties.c:386-389 | a slot's serial fits in 32 bits, is clean, and carries its value's length |
| `SystemProperties.PropArea.Get` | libc/bionic/system_properties.c:220-230 | get returns the length and value of the property find finds, and 0 and a lone terminator when there is none |
| `SystemProperties.PropArea.Update` | libc/bionic/system_properties.c:337-353 | update returns -1 iff the length is PROP_VALUE_MAX or more, changing nothing; otherwise the slot gets the new value and a new serial, the area serial goes up by one modulo 2^32, and every other slot is unchanged |
| `SystemProperties.PropArea.RewriteSlot` | libc/bionic/system_properties.c:344-346 | the slot gets the new value bytes and the updated serial; other slots are untouched |
| `SystemProperties.PropArea.NewSlot` | libc/bionic/system_properties.c:371-374 | the slot gets its serial, name bytes and value bytes; other slots are untouched |
| `SystemProperties.PropArea.Add` | libc/bionic/system_properties.c:355-384 | add returns -1 iff the area is full, the name length is 0 or PROP_NAME_MAX or more, or the value length is PROP_VALUE_MAX or more, and then changes nothing; otherwise the property is appended and listed in the table of contents, and the area serial goes up by one |
| `SystemProperties.SetRequest` | libc/bionic/system_properties.c:301-309 | set sends no request iff the key is missing or too long or the value (a missing one counts as "") is too long; otherwise it sends the key and value |
| `SystemProperties.Set` | libc/bionic/system_properties.c:296-317 | set returns -1 for a refused request, the sender's error when it is negative, and 0 otherwise |
| `SystemPropertiesScenarios.LookupThree` | tests/system_properties_test.cpp:73-84 | among the three properties the tests add, each name is found at its own place, and `property1` is not found |
| `SystemPropertiesScenarios.AddThree` | tests/system_properties_test.cpp:73-75 | three adds to a fresh area give the three properties, in order |
| `SystemPropertiesScenarios.GetThree` | tests/system_properties_test.cpp:77-84 | get on each of the three names returns its value and length |
| `SystemPropertiesScenarios.AddThenGet` | tests/system_properties_test.cpp:67-85 | three adds, then each get returns 6 and its own value |
| `SystemPropertiesScenarios.FindAndUpdate` | tests/system_properties_test.cpp:98-100 | find followed by update rewrites the value of the first slot with that name and nothing else |
| `SystemPropertiesScenarios.UpdateNth` | tests/system_properties_test.cpp:98-108 | updating one of the three properties through find changes only its value |
| `SystemPropertiesScenarios.UpdateThenGet` | tests/system_properties_test.cpp:87-118 | after the three updates, get returns `value4` (6), `newvalue5` (9) and `value6` (6) |
| `SystemPropertiesScenarios.FindNthAfterThreeAdds` | tests/system_properties_test.cpp:181-199 | after three adds, find_nth finds 0, 1 and 2 and nothing for 3, 4, 5, 100, 200 and 247 |
| `SystemPropertiesScenarios.MissingName` | tests/system_properties_test.cpp:210-211 | find of an unknown name returns nothing, and get returns 0 and an empty value |
| `SystemPropertiesScenarios.OversizeRefused` | tests/system_properties_test.cpp:213-215 | add refuses a name of PROP_NAME_MAX and a value of PROP_VALUE_MAX characters, and update refuses a value of PROP_VALUE_MAX |
| `SystemPropertiesScenarios.SerialChanges` | tests/system_properties_test.cpp:218-229 | an update changes the slot's serial |
| `SystemPropertiesScenarios.AddThenGetAny` | libc/bionic/system_properties.c:355-384 | for any name and value add accepts on an area with a free slot, add returns 0. A following get of a name that was not yet present returns the value added and its length. A name already present keeps returning its earlier value, because add does not check for duplicates |
| `SystemPropertiesScenarios.UpdateThenGetAny` | libc/bionic/system_properties.c:337-353 | for any name in the area and any accepted value, find then update then get returns the new value and its length |
| `SystemPropertiesScenarios.Padded` | tests/system_properties_test.cpp:130-133 | the buffer the fill test builds is exactly the width given. It starts with the printed text and continues with the pad character |
| `SystemPropertiesScenarios.FillNamesDistinct` | tests/system_properties_test.cpp:130-131 | `property_<i>` and `property_<j>` padded with `a` differ whenever i and j differ |
| `SystemPropertiesScenarios.FillLookup` | tests/system_properties_test.cpp:147-156 | after n fill adds, the k-th fill name is found at slot k |
| `SystemPropertiesScenarios.FillAdds` | tests/system_properties_test.cpp:129-145 | the fill test's add loop stops after exactly PA_COUNT_MAX adds. The area then holds `property_<k>` = `value_<k>` for every k below it, in order |
| `SystemPropertiesScenarios.GetFill` | tests/system_properties_test.cpp:155-157 | after n fill adds, get of the k-th fill name returns PROP_VALUE_MAX - 1 and the k-th fill value |
| `SystemPropertiesScenarios.ReadBack` | tests/system_properties_test.cpp:147-157 | for every fill name, get returns PROP_VALUE_MAX - 1 and the value added under that name |
| `SystemPropertiesScenarios.Fill` | tests/system_properties_test.cpp:120-159 | the whole fill test: exactly PA_COUNT_MAX adds succeed, and every name added reads back its own value |

## Left out

- File system, `git` and the environment are left out. `regenerate` is modelled on maps from paths to contents: the staging area and the source tree. The stubs already in the tree (the `glob` result) are a parameter. It must list exactly the tree's paths of the form `arch-<arch>/syscalls/<name>.S`; the order `glob` returns them in is left open. Paths are relative to the libc root (the `bionic_libc_root` prefix is dropped). Logging (`D`, `D2`) is not modelled.
- `gen_glibc_syscalls_h` and `scan_linux_unistd_h` read kernel headers. The header's text is a parameter of `State.GenGlibcSyscallsH`; only its path and its place among the generated files are modelled.
- The syscall-table parser (`SysCallsTxtParser`) and `bionic_utils` are not part of this model:
  - Rows arrive already parsed as `Syscall` values.
  - `all_arches` is taken to be arm, mips, x86, x86_64.
  - The ARM prologue `arm_header` is a template whose text is left unspecified.
- `SyscallSync.CompareClassifies`: `filecmp.cmp` is called in its default shallow mode, which takes two files with the same type, size and modification time to be equal without reading them. The model compares contents, so a changed file whose size and modification time happen to match is an edit in the model but not in the tool.
- `GenSyscalls.Scanned`: the stub shape lets the name contain `/`, which `glob`'s `*` does not match. Files in subdirectories of a `syscalls` directory count as found stubs in the model but not in the tool. The same goes for stub names that start with `.`, which `glob`'s `*` skips.
- `SyscallStubs.MipsGenstubLength`: the MIPS stub is only the template filled in. The model states its length and where the names go, not an instruction-level meaning.
- `StubSemantics`: stack addresses are unbounded integers. The 32-bit wrap-around of `%esp` is not modelled, and neither is what the kernel or `__set_errno` does between set-up and tear-down (`X86StubRestoresRegisters` takes it as a hypothesis).
- `SyscallLayout.IsSpace` is Python 2's byte-string whitespace. Unicode whitespace does not arise in the table.
- Concurrency in system_properties.c is not modelled:
  - futex waits and wakes;
  - the retry loop of `__system_property_read` against a concurrent writer (`PropArea.Read` is its single-threaded result);
  - `__system_property_wait` and `__system_property_wait_any`.
- `__system_properties_init` (open, fstat, mmap, magic and version checks) and `get_fd_from_env` are left out, because they are file and memory-mapping I/O. The magic and version words of the area are not modelled.
- `send_prop_msg` talks to the property service over a socket. It is the `send` parameter of `SystemProperties.Set`.
- `PROP_NAME_MAX`, `PROP_VALUE_MAX` and `PA_COUNT_MAX` come from a header that is not part of this model. They are a `Limits` value, and the scenarios use 32, 92 and 247, the sizes the tests rely on.
- A slot's byte offset from the area (what the table of contents stores) is represented by the slot's index. C strings passed by address are represented by the bytes readable there.
- `SystemProperties.PropArea.Read`: the name copy (`strcpy` when a name buffer is passed) is not returned.
- `SystemPropertiesScenarios.ReadBack`: the test's `memcmp` covers PROP_VALUE_MAX bytes, terminator included. The model's properties do not record the byte after a value, so only the PROP_VALUE_MAX - 1 value bytes are compared.
- `SystemPropertiesScenarios.Fill`: the model requires `property_<PA_COUNT_MAX>` and `value_<PA_COUNT_MAX>` to fit their buffers with room to spare. This holds for bionic's limits (32, 92, 247). It leaves out the test's truncating `snprintf` and the memset that would follow it.
- `__system_property_foreach` is used by the tests but is not part of this source file, so it is not modelled.
