/**
 * The driver of gensyscalls.py: the State object that generates the stubs of
 * every syscall-table row, writes them and the per-architecture makefile
 * fragments to a staging area, and plans how to bring the source tree in
 * line with the staging area.
 */
module GenSyscalls {
  import opened Wrappers
  import opened SyscallLayout
  import opened StubText
  import opened SyscallStubs
  import opened SyscallSync

  /** The architectures stubs are generated for, in generation order. */
  const AllArches: seq<Arch> := [Arm, Mips, X86, X86_64]

  function ArchName(a: Arch): string {
    match a
    case Arm => "arm"
    case Mips => "mips"
    case X86 => "x86"
    case X86_64 => "x86_64"
  }

  /** Directory of an architecture's stubs. */
  function StubDir(a: Arch): string {
    "arch-" + ArchName(a) + "/syscalls/"
  }

  function StubPath(a: Arch, func: string): string {
    StubDir(a) + func + ".S"
  }

  function MkPath(a: Arch): string {
    "arch-" + ArchName(a) + "/syscalls.mk"
  }

  const GlibcSyscallsHPath: string := "include/sys/glibc-syscalls.h"

  /** The makefile fragments of the given architectures, in order. */
  function MkPaths(arches: seq<Arch>): seq<string> {
    seq(|arches|, k requires 0 <= k < |arches| => MkPath(arches[k]))
  }

  /** Characters 5 and 8 of a stub directory tell the architectures apart. */
  lemma StubDirKey(a: Arch)
    ensures |StubDir(a)| > 8
    ensures (StubDir(a)[5], StubDir(a)[8]) == match a
      case Arm => ('a', '/')
      case Mips => ('m', 's')
      case X86 => ('x', '/')
      case X86_64 => ('x', '_')
  {
  }

  /** Equal paths with the same directory and the same suffix have the same middle. */
  lemma MiddleCancel(d: string, f: string, g: string, suffix: string)
    requires d + f + suffix == d + g + suffix
    ensures f == g
  {
    assert |f| == |g|;
    assert f == (d + f + suffix)[|d|..|d| + |f|];
    assert g == (d + g + suffix)[|d|..|d| + |g|];
  }

  /** Distinct architectures and function names give distinct stub files. */
  lemma StubPathInjective(a: Arch, f: string, b: Arch, g: string)
    requires StubPath(a, f) == StubPath(b, g)
    ensures a == b && f == g
  {
    var s := StubPath(a, f);
    StubDirKey(a);
    StubDirKey(b);
    assert s[5] == StubDir(a)[5] && s[8] == StubDir(a)[8];
    assert s[5] == StubDir(b)[5] && s[8] == StubDir(b)[8];
    MiddleCancel(StubDir(a), f, g, ".S");
  }

  /** A path of the shape the stub scan finds: an architecture's stub directory, a name, ".S". */
  ghost predicate IsStubPath(p: string) {
    exists a: Arch, f: string :: p == StubPath(a, f)
  }

  /** Characters 5 and 8 of a makefile-fragment path are those of the architecture's stub directory. */
  lemma MkPathKey(a: Arch)
    ensures |MkPath(a)| > 8 && MkPath(a)[5] == StubDir(a)[5] && MkPath(a)[8] == StubDir(a)[8]
  {
  }

  /** A makefile fragment is never a stub file. */
  lemma MkPathNotStub(a: Arch, b: Arch, f: string)
    ensures MkPath(a) != StubPath(b, f)
  {
    var m, s := MkPath(a), StubPath(b, f);
    StubDirKey(a);
    StubDirKey(b);
    MkPathKey(a);
    assert s[5] == StubDir(b)[5] && s[8] == StubDir(b)[8];
    if a == b {
      var k := |"arch-" + ArchName(a) + "/syscalls"|;
      assert m[k] == '.';
      assert s[k] == '/';
    } else {
      assert m[5] != s[5] || m[8] != s[8];
    }
  }

  lemma MkPathIsNotStubPath(a: Arch)
    ensures !IsStubPath(MkPath(a))
  {
    forall b: Arch, f: string
      ensures MkPath(a) != StubPath(b, f)
    {
      MkPathNotStub(a, b, f);
    }
  }

  /** The glibc header is neither a stub file nor a makefile fragment. */
  lemma GlibcPathIsNotGenerated()
    ensures !IsStubPath(GlibcSyscallsHPath)
    ensures forall a :: GlibcSyscallsHPath != MkPath(a)
  {
    forall b: Arch, f: string
      ensures GlibcSyscallsHPath != StubPath(b, f)
    {
      assert StubPath(b, f)[0] == 'a';
    }
    forall a: Arch
      ensures GlibcSyscallsHPath != MkPath(a)
    {
      assert MkPath(a)[0] == 'a';
    }
  }

  /** Distinct architectures have distinct makefile fragments. */
  lemma MkPathInjective(a: Arch, b: Arch)
    requires MkPath(a) == MkPath(b)
    ensures a == b
  {
    StubDirKey(a);
    StubDirKey(b);
    MkPathKey(a);
    MkPathKey(b);
  }

  /**
   * A table row with the names and stubs process_file attaches to it: the
   * number symbol and one stub text per architecture.
   */
  datatype Entry = Entry(call: Syscall, nrName: Option<string>, asm: map<Arch, string>)

  /** A row before processing. */
  function Bare(call: Syscall): Entry {
    Entry(call, None, map[])
  }

  /** A stub with the row's aliases appended. */
  function WithAliases(stub: string, call: Syscall): string {
    stub + AliasBlocks(call.func, call.aliases)
  }

  /** The ARM stub, generated before the x86 checks. */
  function ArmPart(call: Syscall): map<Arch, string> {
    if Arm in call.arches then map[Arm := WithAliases(ArmEabiGenstub(call, MakeNrName(call.name)), call)]
    else map[]
  }

  /** Whether processing stops at this row, and why. */
  function RowError(call: Syscall): Option<GenError> {
    if X86 in call.arches then
      if call.socketcallId < 0 && GenericCount(call.params) > |X86Registers| then Some(TooManyX86Params)
      else None
    else if call.socketcallId >= 0 then Some(SocketcallNotOnX86)
    else None
  }

  /** The x86 stub: the vectored one when the row has a dispatch id. */
  function X86Part(call: Syscall): string
    requires RowError(call).None? && X86 in call.arches
  {
    var nr := MakeNrName(call.name);
    if call.socketcallId >= 0 then WithAliases(X86GenstubSocketcall(call, nr), call)
    else WithAliases(X86Stub(call, nr), call)
  }

  /** The per-row body of process_file. */
  function GenEntry(call: Syscall): (r: Result<Entry, GenError>) {
    var nr := MakeNrName(call.name);
    match RowError(call)
    case Some(e) => Err(e)
    case None =>
      var asm := ArmPart(call);
      var asm := if X86 in call.arches then asm[X86 := X86Part(call)] else asm;
      var asm := if Mips in call.arches then asm[Mips := WithAliases(MipsGenstub(call, nr), call)] else asm;
      var asm := if X86_64 in call.arches then asm[X86_64 := WithAliases(X86_64Genstub(call, nr), call)] else asm;
      Ok(Entry(call, Some(nr), asm))
  }

  /** What a failing row holds when processing stops at it. */
  function PartialEntry(call: Syscall): Entry {
    Entry(call, Some(MakeNrName(call.name)), ArmPart(call))
  }

  /**
   * Dispatch gating: a row fails iff it has a dispatch id but no x86 stub,
   * or needs more than six x86 argument words without a dispatch id.
   */
  lemma GenEntryFails(call: Syscall)
    ensures GenEntry(call).Err? <==>
              (X86 !in call.arches && call.socketcallId >= 0)
              || (X86 in call.arches && call.socketcallId < 0 && GenericCount(call.params) > 6)
    ensures GenEntry(call).Err? ==>
              GenEntry(call).error == if X86 in call.arches then TooManyX86Params else SocketcallNotOnX86
  {
  }

  /** A successful row has one stub per listed architecture and its number symbol. */
  lemma GenEntryStubs(call: Syscall)
    ensures GenEntry(call).Ok? ==> GenEntry(call).value.asm.Keys == call.arches
    ensures GenEntry(call).Ok? ==> GenEntry(call).value.nrName == Some(MakeNrName(call.name))
  {
    if GenEntry(call).Ok? {
      var asm := GenEntry(call).value.asm;
      forall a | a in call.arches
        ensures a in asm
      {
        assert a == Arm || a == Mips || a == X86 || a == X86_64;
      }
    }
  }

  /** The row list after process_file stopped at row `upTo` (or finished, for upTo == |table|). */
  function ProcessedTable(table: seq<Syscall>, upTo: nat): seq<Entry>
    requires upTo <= |table|
    requires forall j :: 0 <= j < upTo ==> GenEntry(table[j]).Ok?
  {
    seq(|table|, j requires 0 <= j < |table| => if j < upTo then GenEntry(table[j]).value else Bare(table[j]))
  }

  /**
   * The x86 step of process_file: the vectored stub for a row with a
   * dispatch id, otherwise the plain stub, which fails past six words.
   */
  method GenerateX86(call: Syscall, nr: string) returns (stub: string, err: Option<GenError>)
    requires X86 in call.arches && nr == MakeNrName(call.name)
    ensures err == RowError(call)
    ensures err.None? ==> stub == X86Part(call)
  {
    if call.socketcallId >= 0 {
      stub := AddAliases(X86GenstubSocketcall(call, nr), call.func, call.aliases);
      err := None;
    } else {
      var res := X86Genstub(call, nr);
      if res.Err? {
        return "", Some(res.error);
      }
      stub := AddAliases(res.value, call.func, call.aliases);
      err := None;
    }
  }

  /** The per-row body of process_file, step by step in the source's order. */
  method GenerateEntry(call: Syscall) returns (entry: Entry, err: Option<GenError>)
    ensures err == RowError(call)
    ensures err.None? ==> GenEntry(call) == Ok(entry)
    ensures err.Some? ==> entry == PartialEntry(call) && GenEntry(call) == Err(err.value)
  {
    var nr := MakeNrName(call.name);
    entry := Entry(call, Some(nr), map[]);
    if Arm in call.arches {
      var stub := AddAliases(ArmEabiGenstub(call, nr), call.func, call.aliases);
      entry := entry.(asm := entry.asm[Arm := stub]);
    }
    if X86 in call.arches {
      var stub, x86Err := GenerateX86(call, nr);
      if x86Err.Some? {
        return entry, x86Err;
      }
      entry := entry.(asm := entry.asm[X86 := stub]);
    } else if call.socketcallId >= 0 {
      return entry, Some(SocketcallNotOnX86);
    }
    if Mips in call.arches {
      var stub := AddAliases(MipsGenstub(call, nr), call.func, call.aliases);
      entry := entry.(asm := entry.asm[Mips := stub]);
    }
    if X86_64 in call.arches {
      var stub := AddAliases(X86_64Genstub(call, nr), call.func, call.aliases);
      entry := entry.(asm := entry.asm[X86_64 := stub]);
    }
    err := None;
  }

  /** The stub files of the given rows, row by row, architecture by architecture. */
  function StubPaths(entries: seq<Entry>): seq<string> {
    if entries == [] then []
    else StubPaths(entries[..|entries| - 1]) + EntryStubPaths(entries[|entries| - 1], AllArches)
  }

  function EntryStubPaths(e: Entry, arches: seq<Arch>): seq<string> {
    if arches == [] then []
    else
      var prev := EntryStubPaths(e, arches[..|arches| - 1]);
      var a := arches[|arches| - 1];
      if a in e.asm then prev + [StubPath(a, e.call.func)] else prev
  }

  /** The staging area after writing the stubs of the given rows. */
  function WriteStubs(staged: Files, entries: seq<Entry>): Files {
    if entries == [] then staged
    else WriteEntryStubs(WriteStubs(staged, entries[..|entries| - 1]), entries[|entries| - 1], AllArches)
  }

  function WriteEntryStubs(staged: Files, e: Entry, arches: seq<Arch>): Files {
    if arches == [] then staged
    else
      var prev := WriteEntryStubs(staged, e, arches[..|arches| - 1]);
      var a := arches[|arches| - 1];
      if a in e.asm then prev[StubPath(a, e.call.func) := e.asm[a]] else prev
  }

  lemma {:induction false} EntryStubPathsIff(e: Entry, arches: seq<Arch>, p: string)
    ensures p in EntryStubPaths(e, arches) <==> exists a :: a in arches && a in e.asm && p == StubPath(a, e.call.func)
  {
    if arches != [] {
      var init := arches[..|arches| - 1];
      EntryStubPathsIff(e, init, p);
      assert arches == init + [arches[|arches| - 1]];
    }
  }

  /** Writing one row's stubs: its stub paths get its stubs; every other path keeps its content. */
  lemma {:induction false} WriteEntryStubsFacts(staged: Files, e: Entry, arches: seq<Arch>, p: string)
    ensures p in WriteEntryStubs(staged, e, arches) <==> p in staged || p in EntryStubPaths(e, arches)
    ensures p !in EntryStubPaths(e, arches) && p in staged ==> WriteEntryStubs(staged, e, arches)[p] == staged[p]
    ensures forall a :: a in arches && a in e.asm && p == StubPath(a, e.call.func) ==>
              p in WriteEntryStubs(staged, e, arches) && WriteEntryStubs(staged, e, arches)[p] == e.asm[a]
  {
    if arches != [] {
      var init := arches[..|arches| - 1];
      WriteEntryStubsFacts(staged, e, init, p);
      var b := arches[|arches| - 1];
      forall a | a in arches && a in e.asm && p == StubPath(a, e.call.func)
        ensures p in WriteEntryStubs(staged, e, arches) && WriteEntryStubs(staged, e, arches)[p] == e.asm[a]
      {
        if p == StubPath(b, e.call.func) {
          StubPathInjective(a, e.call.func, b, e.call.func);
        } else {
          assert a in init;
        }
      }
    }
  }

  /**
   * gen_syscall_stubs stages every generated stub: each stub path of the
   * rows is in the staging area and, when no later row has a stub for the
   * same architecture and function, holds exactly the stub generated for it.
   */
  lemma {:induction false} WriteStubsFacts(staged: Files, entries: seq<Entry>, i: nat, a: Arch)
    requires i < |entries| && a in entries[i].asm
    requires forall j, k :: 0 <= j < k < |entries| && a in entries[j].asm && a in entries[k].asm ==>
               entries[j].call.func != entries[k].call.func
    ensures StubPath(a, entries[i].call.func) in WriteStubs(staged, entries)
    ensures WriteStubs(staged, entries)[StubPath(a, entries[i].call.func)] == entries[i].asm[a]
  {
    var n := |entries| - 1;
    var init := entries[..n];
    var p := StubPath(a, entries[i].call.func);
    WriteEntryStubsFacts(WriteStubs(staged, init), entries[n], AllArches, p);
    assert a in AllArches;
    if i < n {
      assert init[i] == entries[i];
      WriteStubsFacts(staged, init, i, a);
      EntryStubPathsIff(entries[n], AllArches, p);
      forall b | b in AllArches && b in entries[n].asm
        ensures p != StubPath(b, entries[n].call.func)
      {
        if p == StubPath(b, entries[n].call.func) {
          StubPathInjective(a, entries[i].call.func, b, entries[n].call.func);
        }
      }
    }
  }

  /** The makefile sources of one architecture: the stub path of every row with a stub for it. */
  function MkSources(entries: seq<Entry>, a: Arch): seq<string> {
    if entries == [] then []
    else
      var prev := MkSources(entries[..|entries| - 1], a);
      var e := entries[|entries| - 1];
      if a in e.asm then prev + [StubPath(a, e.call.func)] else prev
  }

  function MkLine(source: string): string {
    "syscall_src += " + source + "\n"
  }

  /** One makefile line per source, in order. */
  function MkLines(sources: seq<string>): string {
    if sources == [] then ""
    else MkLines(sources[..|sources| - 1]) + MkLine(sources[|sources| - 1])
  }

  const MkHeader: string := "# Auto-generated by gensyscalls.py. Do not edit.\nsyscall_src :=\n"

  /** The makefile fragment lists the stub of every row that has one for the architecture, and nothing else. */
  lemma {:induction false} MkSourcesIff(entries: seq<Entry>, a: Arch, p: string)
    ensures p in MkSources(entries, a) <==>
              exists i :: 0 <= i < |entries| && a in entries[i].asm && p == StubPath(a, entries[i].call.func)
  {
    if entries != [] {
      var n := |entries| - 1;
      var init := entries[..n];
      MkSourcesIff(init, a, p);
      if p in MkSources(init, a) {
        var i :| 0 <= i < n && a in init[i].asm && p == StubPath(a, init[i].call.func);
        assert entries[i] == init[i];
      }
      if exists i :: 0 <= i < |entries| && a in entries[i].asm && p == StubPath(a, entries[i].call.func) {
        var i :| 0 <= i < |entries| && a in entries[i].asm && p == StubPath(a, entries[i].call.func);
        if i < n {
          assert init[i] == entries[i];
        }
      }
    }
  }

  /** Every file the makefile fragment lists is a stub that gen_syscall_stubs writes. */
  lemma {:induction false} MkSourcesAreStubs(entries: seq<Entry>, a: Arch, p: string)
    requires p in MkSources(entries, a)
    ensures p in StubPaths(entries)
  {
    var n := |entries| - 1;
    var init := entries[..n];
    if p in MkSources(init, a) {
      MkSourcesAreStubs(init, a, p);
    } else {
      EntryStubPathsIff(entries[n], AllArches, p);
      assert a in AllArches;
    }
  }

  /** The text gen_arch_syscalls_mk writes for one architecture. */
  function MkText(entries: seq<Entry>, a: Arch): string {
    MkHeader + MkLines(MkSources(entries, a))
  }

  /** The staging area after writing the makefile fragments of the given architectures, in order. */
  function WriteMks(staged: Files, entries: seq<Entry>, arches: seq<Arch>): Files {
    if arches == [] then staged
    else
      var a := arches[|arches| - 1];
      WriteMks(staged, entries, arches[..|arches| - 1])[MkPath(a) := MkText(entries, a)]
  }

  /**
   * Writing the makefile fragments: each given architecture's fragment holds
   * its text; every path that is not a fragment of them keeps its content.
   */
  lemma {:induction false} WriteMksFacts(staged: Files, entries: seq<Entry>, arches: seq<Arch>, p: string)
    ensures p in WriteMks(staged, entries, arches) <==> p in staged || p in MkPaths(arches)
    ensures p !in MkPaths(arches) && p in staged ==> WriteMks(staged, entries, arches)[p] == staged[p]
    ensures forall a <- arches :: MkPath(a) in WriteMks(staged, entries, arches)
                                  && WriteMks(staged, entries, arches)[MkPath(a)] == MkText(entries, a)
  {
    if arches != [] {
      var init := arches[..|arches| - 1];
      var b := arches[|arches| - 1];
      WriteMksFacts(staged, entries, init, p);
      assert MkPaths(arches) == MkPaths(init) + [MkPath(b)];
      forall a <- arches
        ensures MkPath(a) in WriteMks(staged, entries, arches)
                && WriteMks(staged, entries, arches)[MkPath(a)] == MkText(entries, a)
      {
        if MkPath(a) == MkPath(b) {
          MkPathInjective(a, b);
        } else {
          assert a in init;
          WriteMksFacts(staged, entries, init, MkPath(a));
        }
      }
    }
  }

  /** Every path gen_syscall_stubs records is a stub path. */
  lemma {:induction false} StubPathsAreStubs(entries: seq<Entry>, p: string)
    requires p in StubPaths(entries)
    ensures IsStubPath(p)
  {
    var n := |entries| - 1;
    if p in StubPaths(entries[..n]) {
      StubPathsAreStubs(entries[..n], p);
    } else {
      EntryStubPathsIff(entries[n], AllArches, p);
    }
  }

  /** Writing the stubs adds exactly the rows' stub paths and keeps every other path's content. */
  lemma {:induction false} WriteStubsFrame(staged: Files, entries: seq<Entry>, p: string)
    ensures p in WriteStubs(staged, entries) <==> p in staged || p in StubPaths(entries)
    ensures p !in StubPaths(entries) && p in staged ==> WriteStubs(staged, entries)[p] == staged[p]
  {
    if entries != [] {
      var n := |entries| - 1;
      WriteStubsFrame(staged, entries[..n], p);
      WriteEntryStubsFacts(WriteStubs(staged, entries[..n]), entries[n], AllArches, p);
    }
  }

  /** The staging area after a regenerate run: the glibc header, each makefile fragment, each stub. */
  function RegeneratedStaging(base: Files, entries: seq<Entry>, glibcHeader: string): Files {
    WriteStubs(WriteMks(base[GlibcSyscallsHPath := glibcHeader], entries, AllArches), entries)
  }

  /**
   * What a regenerate run stages: the glibc header's text, each
   * architecture's makefile fragment listing its stubs, and every generated
   * stub; any other path keeps what the staging area held.
   */
  lemma RegeneratedStagingFacts(base: Files, entries: seq<Entry>, glibcHeader: string, p: string)
    ensures var r := RegeneratedStaging(base, entries, glibcHeader);
            && GlibcSyscallsHPath in r && r[GlibcSyscallsHPath] == glibcHeader
            && (forall a :: MkPath(a) in r && r[MkPath(a)] == MkText(entries, a))
            && (p in StubPaths(entries) ==> p in r)
            && (p != GlibcSyscallsHPath && p !in MkPaths(AllArches) && p !in StubPaths(entries) ==>
                  (p in r <==> p in base) && (p in base ==> r[p] == base[p]))
  {
    var g := base[GlibcSyscallsHPath := glibcHeader];
    var m := WriteMks(g, entries, AllArches);
    GlibcPathIsNotGenerated();
    WriteMksFacts(g, entries, AllArches, GlibcSyscallsHPath);
    WriteMksFacts(g, entries, AllArches, p);
    if GlibcSyscallsHPath in StubPaths(entries) {
      StubPathsAreStubs(entries, GlibcSyscallsHPath);
    }
    WriteStubsFrame(m, entries, GlibcSyscallsHPath);
    forall a
      ensures MkPath(a) in RegeneratedStaging(base, entries, glibcHeader)
              && RegeneratedStaging(base, entries, glibcHeader)[MkPath(a)] == MkText(entries, a)
    {
      assert a == AllArches[0] || a == AllArches[1] || a == AllArches[2] || a == AllArches[3];
      WriteMksFacts(g, entries, AllArches, MkPath(a));
      if MkPath(a) in StubPaths(entries) {
        StubPathsAreStubs(entries, MkPath(a));
        MkPathIsNotStubPath(a);
      }
      WriteStubsFrame(m, entries, MkPath(a));
    }
    WriteStubsFrame(m, entries, p);
  }

  /** The stub scan of regenerate: the found paths are exactly the tree's files of stub shape. */
  ghost predicate Scanned(found: seq<string>, tree: Files) {
    && (forall p <- found :: p in tree && IsStubPath(p))
    && (forall p | p in tree && IsStubPath(p) :: p in found)
  }

  /**
   * Running regenerate again with the same staged files, on the tree that a
   * run that is not dry left behind and with that tree's stubs as the found
   * stubs, plans no add, no edit and no delete, and leaves the tree as it is.
   */
  lemma RerunIsNoOp(staged: Files, tree: Files, newStubs: seq<string>, otherFiles: seq<string>,
                    oldStubs: seq<string>, found: seq<string>)
    requires forall q <- newStubs + otherFiles :: q in staged
    requires forall q <- otherFiles :: !IsStubPath(q)
    requires forall q <- oldStubs :: IsStubPath(q)
    requires forall q | q in tree && IsStubPath(q) :: q in oldStubs
    requires Scanned(found, TreeAfter(newStubs + otherFiles, staged, tree, oldStubs, newStubs, false))
    ensures var after := TreeAfter(newStubs + otherFiles, staged, tree, oldStubs, newStubs, false);
            && PlanFor(newStubs + otherFiles, staged, after, found, newStubs) == Plan([], [], [])
            && TreeAfter(newStubs + otherFiles, staged, after, found, newStubs, false) == after
  {
    var paths := newStubs + otherFiles;
    var after := TreeAfter(paths, staged, tree, oldStubs, newStubs, false);
    forall q <- oldStubs
      ensures q !in paths || q in newStubs
    {
      assert q in paths ==> q in newStubs || q in otherFiles;
    }
    RerunFindsNoChanges(staged, tree, paths, oldStubs, newStubs);
    forall q <- found
      ensures q in newStubs
    {
      CompareClassifies(paths, staged, tree, q);
      DeletesIff(oldStubs, newStubs, q);
      assert q in paths ==> q in newStubs || q in otherFiles;
    }
    DeletesNone(found, newStubs);
    assert Apply(after, Plan([], [], []), staged, false) == after;
  }

  /** The gensyscalls.py driver state. */
  class State {
    var oldStubs: seq<string>
    var newStubs: seq<string>
    var otherFiles: seq<string>
    var syscalls: seq<Entry>
    /** Files written to the temporary staging directory. */
    var staged: Files
    /** Whether process_file stopped at a failing row; its exception ends the script. */
    ghost var aborted: bool

    /**
     * Every file the state lists as generated has been written; the found
     * stubs have the stub shape and the other generated files do not.
     */
    ghost predicate Valid()
      reads this
    {
      && (forall p <- newStubs :: p in staged)
      && (forall p <- otherFiles :: p in staged && !IsStubPath(p))
      && (forall p <- oldStubs :: IsStubPath(p))
    }

    constructor()
      ensures Valid() && !aborted
      ensures oldStubs == [] && newStubs == [] && otherFiles == [] && syscalls == [] && staged == map[]
    {
      oldStubs, newStubs, otherFiles, syscalls, staged := [], [], [], [], map[];
      aborted := false;
    }

    /**
     * process_file: attach the generated stubs to every row; stop at the
     * first row that fails, which keeps the stubs generated for it so far
     * and leaves later rows unprocessed.
     */
    method ProcessFile(table: seq<Syscall>) returns (failure: Option<(nat, GenError)>)
      modifies this
      ensures failure.None? ==> (forall j :: 0 <= j < |table| ==> GenEntry(table[j]).Ok?)
                                && syscalls == ProcessedTable(table, |table|)
      ensures failure.Some? ==>
                var (i, e) := failure.value;
                && i < |table|
                && (forall j :: 0 <= j < i ==> GenEntry(table[j]).Ok?)
                && GenEntry(table[i]) == Err(e)
                && syscalls == ProcessedTable(table, i)[i := PartialEntry(table[i])]
      ensures aborted == failure.Some?
      ensures oldStubs == old(oldStubs) && newStubs == old(newStubs) && otherFiles == old(otherFiles)
      ensures staged == old(staged)
    {
      aborted := false;
      syscalls := seq(|table|, j requires 0 <= j < |table| => Bare(table[j]));
      for i := 0 to |table|
        invariant forall j :: 0 <= j < i ==> GenEntry(table[j]).Ok?
        invariant syscalls == ProcessedTable(table, i)
        invariant oldStubs == old(oldStubs) && newStubs == old(newStubs) && otherFiles == old(otherFiles)
        invariant staged == old(staged) && !aborted
      {
        var entry, err := GenerateEntry(table[i]);
        if err.Some? {
          syscalls := syscalls[i := entry];
          aborted := true;
          return Some((i, err.value));
        }
        syscalls := syscalls[i := entry];
      }
      return None;
    }

    /**
     * gen_glibc_syscalls_h: write the glibc header and record its path. Its
     * text is a parameter: it is scraped from kernel headers outside this model.
     */
    method GenGlibcSyscallsH(text: string)
      requires Valid()
      modifies this
      ensures Valid()
      ensures staged == old(staged)[GlibcSyscallsHPath := text]
      ensures otherFiles == old(otherFiles) + [GlibcSyscallsHPath]
      ensures oldStubs == old(oldStubs) && newStubs == old(newStubs) && syscalls == old(syscalls)
      ensures aborted == old(aborted)
    {
      GlibcPathIsNotGenerated();
      staged := staged[GlibcSyscallsHPath := text];
      otherFiles := otherFiles + [GlibcSyscallsHPath];
    }

    /** gen_arch_syscalls_mk: the makefile fragment listing one architecture's stubs. */
    method GenArchSyscallsMk(a: Arch)
      requires Valid()
      modifies this
      ensures Valid()
      ensures staged == old(staged)[MkPath(a) := MkText(syscalls, a)]
      ensures otherFiles == old(otherFiles) + [MkPath(a)]
      ensures oldStubs == old(oldStubs) && newStubs == old(newStubs) && syscalls == old(syscalls)
      ensures aborted == old(aborted)
    {
      var rows := syscalls;
      var text := MkHeader;
      ghost var sources: seq<string> := [];
      for i := 0 to |rows|
        invariant sources == MkSources(rows[..i], a)
        invariant text == MkHeader + MkLines(sources)
        invariant unchanged(this)
      {
        assert rows[..i + 1][..i] == rows[..i];
        if a in rows[i].asm {
          var path := StubPath(a, rows[i].call.func);
          var line := "syscall_src += " + path + "\n";
          assert line == MkLine(path);
          AppendAssoc(MkHeader, MkLines(sources), line);
          sources := sources + [path];
          text := text + line;
        }
      }
      assert rows[..|rows|] == rows;
      MkPathIsNotStubPath(a);
      staged := staged[MkPath(a) := text];
      otherFiles := otherFiles + [MkPath(a)];
    }

    /** The makefile loop of regenerate: gen_arch_syscalls_mk for every architecture, in order. */
    method GenAllSyscallsMk()
      requires Valid()
      modifies this
      ensures Valid()
      ensures staged == WriteMks(old(staged), syscalls, AllArches)
      ensures otherFiles == old(otherFiles) + MkPaths(AllArches)
      ensures oldStubs == old(oldStubs) && newStubs == old(newStubs) && syscalls == old(syscalls)
      ensures aborted == old(aborted)
    {
      for k := 0 to |AllArches|
        invariant Valid()
        invariant staged == WriteMks(old(staged), syscalls, AllArches[..k])
        invariant otherFiles == old(otherFiles) + MkPaths(AllArches[..k])
        invariant oldStubs == old(oldStubs) && newStubs == old(newStubs) && syscalls == old(syscalls)
        invariant aborted == old(aborted)
      {
        assert AllArches[..k + 1][..k] == AllArches[..k];
        assert MkPaths(AllArches[..k + 1]) == MkPaths(AllArches[..k]) + [MkPath(AllArches[k])];
        GenArchSyscallsMk(AllArches[k]);
      }
      assert AllArches[..|AllArches|] == AllArches;
    }

    /** The body of gen_syscall_stubs for one row: write its stub for each architecture it has one for. */
    method StageEntry(e: Entry)
      requires Valid()
      modifies this
      ensures Valid()
      ensures newStubs == old(newStubs) + EntryStubPaths(e, AllArches)
      ensures staged == WriteEntryStubs(old(staged), e, AllArches)
      ensures oldStubs == old(oldStubs) && otherFiles == old(otherFiles) && syscalls == old(syscalls)
      ensures aborted == old(aborted)
    {
      for k := 0 to |AllArches|
        invariant Valid()
        invariant newStubs == old(newStubs) + EntryStubPaths(e, AllArches[..k])
        invariant staged == WriteEntryStubs(old(staged), e, AllArches[..k])
        invariant oldStubs == old(oldStubs) && otherFiles == old(otherFiles) && syscalls == old(syscalls)
        invariant aborted == old(aborted)
      {
        assert AllArches[..k + 1][..k] == AllArches[..k];
        var a := AllArches[k];
        if a in e.asm {
          var filename := StubPath(a, e.call.func);
          staged := staged[filename := e.asm[a]];
          newStubs := newStubs + [filename];
        }
      }
      assert AllArches[..|AllArches|] == AllArches;
    }

    /** gen_syscall_stubs: write every generated stub and record its path. */
    method GenSyscallStubs()
      requires Valid()
      modifies this
      ensures Valid()
      ensures newStubs == old(newStubs) + StubPaths(syscalls)
      ensures staged == WriteStubs(old(staged), syscalls)
      ensures oldStubs == old(oldStubs) && otherFiles == old(otherFiles) && syscalls == old(syscalls)
      ensures aborted == old(aborted)
    {
      var rows := syscalls;
      for i := 0 to |rows|
        invariant Valid()
        invariant newStubs == old(newStubs) + StubPaths(rows[..i])
        invariant staged == WriteStubs(old(staged), rows[..i])
        invariant oldStubs == old(oldStubs) && otherFiles == old(otherFiles) && syscalls == rows
        invariant aborted == old(aborted)
      {
        assert rows[..i + 1][..i] == rows[..i];
        StageEntry(rows[i]);
      }
      assert rows[..|rows|] == rows;
    }

    /**
     * regenerate: record the stubs found in the tree, stage every generated
     * file, and compute the plan and the tree it leaves. It runs only after
     * process_file succeeded. The glibc header's text is a parameter: it is
     * scraped from kernel headers outside this model. The found stubs are
     * those of the tree: the scan lists exactly the tree's files of stub shape.
     */
    method Regenerate(found: seq<string>, glibcHeader: string, tree: Files, dryRun: bool)
        returns (plan: Plan, tree': Files)
      requires Valid() && !aborted
      requires Scanned(found, tree)
      modifies this
      ensures Valid() && !aborted
      ensures oldStubs == old(oldStubs) + found
      ensures syscalls == old(syscalls)
      ensures newStubs == old(newStubs) + StubPaths(syscalls)
      ensures otherFiles == old(otherFiles) + [GlibcSyscallsHPath] + MkPaths(AllArches)
      ensures staged == RegeneratedStaging(old(staged), syscalls, glibcHeader)
      ensures plan == PlanFor(newStubs + otherFiles, staged, tree, oldStubs, newStubs)
      ensures tree' == TreeAfter(newStubs + otherFiles, staged, tree, oldStubs, newStubs, dryRun)
    {
      oldStubs := oldStubs + found;
      GenGlibcSyscallsH(glibcHeader);
      GenAllSyscallsMk();
      GenSyscallStubs();
      plan, tree' := Sync(newStubs + otherFiles, staged, tree, oldStubs, newStubs, dryRun);
    }
  }

  /** The paths a run from a fresh state stages: the stubs, then the glibc header and the makefile fragments. */
  function GeneratedPaths(entries: seq<Entry>): seq<string> {
    StubPaths(entries) + [GlibcSyscallsHPath] + MkPaths(AllArches)
  }

  /** The staging area of a run from a fresh state, which holds every path it stages. */
  function FreshStaging(entries: seq<Entry>, glibcHeader: string): (r: Files)
    ensures forall q <- GeneratedPaths(entries) :: q in r
  {
    var r := RegeneratedStaging(map[], entries, glibcHeader);
    assert forall q <- GeneratedPaths(entries) :: q in r by {
      forall q <- GeneratedPaths(entries)
        ensures q in r
      {
        RegeneratedStagingFacts(map[], entries, glibcHeader, q);
        if q in MkPaths(AllArches) {
          var k :| 0 <= k < |AllArches| && q == MkPaths(AllArches)[k];
          assert q == MkPath(AllArches[k]);
        }
      }
    }
    r
  }

  /**
   * The script's top level: a fresh state, process_file on the syscall
   * table, then regenerate. A failing row ends the script before
   * regenerate, with the tree untouched.
   */
  method Run(table: seq<Syscall>, glibcHeader: string, found: seq<string>, tree: Files, dryRun: bool)
      returns (failure: Option<(nat, GenError)>, entries: seq<Entry>, plan: Plan, tree': Files)
    requires Scanned(found, tree)
    ensures failure.None? ==> (forall j :: 0 <= j < |table| ==> GenEntry(table[j]).Ok?)
                              && entries == ProcessedTable(table, |table|)
    ensures failure.Some? ==> failure.value.0 < |table| && GenEntry(table[failure.value.0]).Err?
    ensures failure.Some? ==> plan == Plan([], [], []) && tree' == tree
    ensures failure.None? ==>
              var staged := FreshStaging(entries, glibcHeader);
              && plan == PlanFor(GeneratedPaths(entries), staged, tree, found, StubPaths(entries))
              && tree' == TreeAfter(GeneratedPaths(entries), staged, tree, found, StubPaths(entries), dryRun)
  {
    var state := new State();
    failure := state.ProcessFile(table);
    if failure.Some? {
      assert GenEntry(table[failure.value.0]).Err?;
      return failure, state.syscalls, Plan([], [], []), tree;
    }
    entries := state.syscalls;
    plan, tree' := state.Regenerate(found, glibcHeader, tree, dryRun);
    assert state.oldStubs == found && state.newStubs == StubPaths(entries);
    assert state.newStubs + state.otherFiles == GeneratedPaths(entries);
    assert state.staged == FreshStaging(entries, glibcHeader);
  }

  /**
   * Running the script twice on the same table and glibc header, the
   * second run on the tree the first (not dry) run left behind, the second
   * run plans no add, no edit and no delete and leaves the tree as it is.
   */
  lemma RunTwiceIsNoOp(entries: seq<Entry>, glibcHeader: string, tree: Files, found: seq<string>, found': seq<string>)
    requires Scanned(found, tree)
    requires Scanned(found', TreeAfter(GeneratedPaths(entries), FreshStaging(entries, glibcHeader), tree,
                                       found, StubPaths(entries), false))
    ensures var staged := FreshStaging(entries, glibcHeader);
            var after := TreeAfter(GeneratedPaths(entries), staged, tree, found, StubPaths(entries), false);
            && PlanFor(GeneratedPaths(entries), staged, after, found', StubPaths(entries)) == Plan([], [], [])
            && TreeAfter(GeneratedPaths(entries), staged, after, found', StubPaths(entries), false) == after
  {
    var others := [GlibcSyscallsHPath] + MkPaths(AllArches);
    assert GeneratedPaths(entries) == StubPaths(entries) + others;
    forall q <- others
      ensures !IsStubPath(q)
    {
      GlibcPathIsNotGenerated();
      if q in MkPaths(AllArches) {
        var k :| 0 <= k < |AllArches| && q == MkPaths(AllArches)[k];
        MkPathIsNotStubPath(AllArches[k]);
      }
    }
    RerunIsNoOp(FreshStaging(entries, glibcHeader), tree, StubPaths(entries), others, found, found');
  }
}
