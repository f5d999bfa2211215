/**
 * Per-architecture stub builders of gensyscalls.py.
 *
 * Each builder turns one syscall-table row into assembly text. Templates the
 * tool fills with `%` are `Template`s; lines the tool assembles one by one
 * are `Insn`s, so that the shape of a stub (which registers it saves, where
 * it loads each argument from, what it restores) can be stated and, in
 * StubSemantics, executed.
 */
module SyscallStubs {
  import opened Wrappers
  import opened SyscallLayout
  import opened StubText

  datatype Arch = Arm | Mips | X86 | X86_64

  /** One row of the syscall table, as the table parser hands it over. */
  datatype Syscall = Syscall(
    name: string,          // kernel name, turned into the __NR_ symbol
    func: string,          // exported C function
    params: seq<string>,   // raw parameter types
    aliases: seq<string>,  // extra exported names
    arches: set<Arch>,     // architectures a stub is generated for
    socketcallId: int)     // x86 socketcall dispatch id, negative when absent

  /** The two ways generating one row can fail. */
  datatype GenError =
    | SocketcallNotOnX86   // a dispatch id on a row without an x86 stub
    | TooManyX86Params     // more than six argument words on x86

  /** Prologue shared by the x86 and x86-64 stubs. */
  const SyscallStubHeader: Template := [
    Lit("/* autogenerated by gensyscalls.py */\n#include <asm/unistd.h>\n#include <linux/err.h>\n#include <machine/asm.h>\n\nENTRY("),
    Func, Lit(")\n")]

  /** The ARM prologue; it is defined outside the generator and its text is not modelled. */
  const ArmHeader: Template

  /** The ARM body after the prologue: load the number symbol, branch to a trampoline. */
  function ArmEabiTail(trampoline: string): Template {
    [Lit("    ldr     ip, ="), NrName, Lit("\n    b       " + trampoline + "\nEND("), Func, Lit(")\n")]
  }

  const ArmEabiCallDefault: Template := ArmHeader + ArmEabiTail("__bionic_syscall_eabi")

  const ArmEabiCallLong: Template := ArmHeader + ArmEabiTail("__bionic_long_syscall_eabi")

  const MipsCall: Template := [
    Lit("/* autogenerated by gensyscalls.py */\n#include <asm/unistd.h>\n    .text\n    .globl "), Func,
    Lit("\n    .align 4\n    .ent "), Func,
    Lit("\n\n"), Func,
    Lit(":\n    .set noreorder\n    .cpload $t9\n    li $v0, "), NrName,
    Lit("\n    syscall\n    bnez $a3, 1f\n    move $a0, $v0\n    j $ra\n    nop\n1:\n    la $t9,__set_errno\n    j $t9\n    nop\n    .set reorder\n    .end "), Func,
    Lit("\n")]

  const X86Call: Template := [
    Lit("    movl    $"), NrName,
    Lit(", %eax\n    int     $0x80\n    cmpl    $-MAX_ERRNO, %eax\n    jb      1f\n    negl    %eax\n    pushl   %eax\n    call    __set_errno\n    addl    $4, %esp\n    orl     $-1, %eax\n1:\n")]

  const X86Return: Template := [Lit("    ret\nEND("), Func, Lit(")\n")]

  const X86_64Call: Template := [
    Lit("    movl    $"), NrName,
    Lit(", %eax\n    syscall\n    cmpq    $-MAX_ERRNO, %rax\n    jb      1f\n    negl    %eax\n    movl    %eax, %edi\n    call    __set_errno\n    orq     $-1, %rax\n1:\n    ret\nEND("), Func,
    Lit(")\n")]

  /**
   * make__NR_name: the syscall-number symbol. Names already starting with
   * "__" (such as __ARM_NR_cacheflush) are kept, others get "__NR_".
   */
  function MakeNrName(name: string): (r: string)
    ensures "__" <= r
    ensures r == name <==> "__" <= name
    ensures r == name || r == "__NR_" + name
  {
    if "__" <= name then name else "__NR_" + name
  }

  /** Making a symbol name twice is making it once. */
  lemma MakeNrNameIdempotent(name: string)
    ensures MakeNrName(MakeNrName(name)) == MakeNrName(name)
  {
  }

  /** The export-and-equate directives binding one alias to the function. */
  function AliasBlock(func: string, alias: string): string {
    "\n    .globl _C_LABEL(" + alias + ")\n    .equ _C_LABEL(" + alias + "), _C_LABEL(" + func + ")\n"
  }

  /** One alias block per alias, in list order. */
  function AliasBlocks(func: string, aliases: seq<string>): string {
    if aliases == [] then ""
    else AliasBlocks(func, aliases[..|aliases| - 1]) + AliasBlock(func, aliases[|aliases| - 1])
  }

  /** The blocks of a concatenated alias list are the concatenated blocks. */
  lemma {:induction false} AliasBlocksAppend(func: string, a: seq<string>, b: seq<string>)
    ensures AliasBlocks(func, a + b) == AliasBlocks(func, a) + AliasBlocks(func, b)
    decreases |b|
  {
    if b == [] {
      assert a + b == a;
    } else {
      var b' := b[..|b| - 1];
      var last := AliasBlock(func, b[|b| - 1]);
      assert (a + b)[..|a + b| - 1] == a + b' && (a + b)[|a + b| - 1] == b[|b| - 1];
      assert AliasBlocks(func, a + b) == AliasBlocks(func, a + b') + last;
      AliasBlocksAppend(func, a, b');
      AppendAssoc(AliasBlocks(func, a), AliasBlocks(func, b'), last);
    }
  }

  /** add_aliases: the stub followed by one alias block per alias. */
  method AddAliases(stub: string, func: string, aliases: seq<string>) returns (r: string)
    ensures r == stub + AliasBlocks(func, aliases)
  {
    r := stub;
    for i := 0 to |aliases|
      invariant r == stub + AliasBlocks(func, aliases[..i])
    {
      assert aliases[..i + 1][..i] == aliases[..i];
      r := r + AliasBlock(func, aliases[i]);
    }
    assert aliases[..|aliases|] == aliases;
  }

  /** The text of the ARM body, spelled out. */
  lemma ArmEabiTailText(trampoline: string, func: string, nr: string)
    ensures Render(ArmEabiTail(trampoline), func, nr)
         == "    ldr     ip, =" + (nr + (("\n    b       " + trampoline + "\nEND(") + (func + ")\n")))
  {
    var t := ArmEabiTail(trampoline);
    assert t[5..] == [] && t[0..] == t;
    RenderFrom(t, 4, func, nr);
    RenderFrom(t, 3, func, nr);
    RenderFrom(t, 2, func, nr);
    RenderFrom(t, 1, func, nr);
    RenderFrom(t, 0, func, nr);
  }

  /**
   * arm_eabi_genstub: the number symbol goes to ip and the stub branches to
   * the long-call trampoline, which also loads the stack-passed registers,
   * iff more than four argument registers are needed.
   */
  function ArmEabiGenstub(call: Syscall, nr: string): (r: string)
    ensures r == Render(ArmHeader, call.func, nr) + Render(ArmEabiTail(
                   if ArmCount(call.params) > 4 then "__bionic_long_syscall_eabi" else "__bionic_syscall_eabi"),
                   call.func, nr)
  {
    var numRegs := ArmCount(call.params);
    var trampoline := if numRegs > 4 then "__bionic_long_syscall_eabi" else "__bionic_syscall_eabi";
    RenderAppend(ArmHeader, ArmEabiTail(trampoline), call.func, nr);
    if numRegs > 4 then Render(ArmEabiCallLong, call.func, nr)
    else Render(ArmEabiCallDefault, call.func, nr)
  }

  /**
   * mips_genstub: the fixed MIPS routine; the function name is spliced in
   * four times (.globl, .ent, label, .end) and the number symbol once.
   */
  function MipsGenstub(call: Syscall, nr: string): string {
    Render(MipsCall, call.func, nr)
  }

  /** The second half of the MIPS template names the function once. */
  lemma MipsFuncHolesTail()
    ensures Holes(MipsCall[6..], Func) == 1
  {
    var t := MipsCall;
    assert t[11..] == [];
    HolesFrom(t, 10, Func);
    HolesFrom(t, 9, Func);
    HolesFrom(t, 8, Func);
    HolesFrom(t, 7, Func);
    HolesFrom(t, 6, Func);
  }

  /** The MIPS template names the function four times. */
  lemma MipsFuncHoles()
    ensures Holes(MipsCall, Func) == 4
  {
    var t := MipsCall;
    MipsFuncHolesTail();
    assert t[0..] == t;
    HolesFrom(t, 5, Func);
    HolesFrom(t, 4, Func);
    HolesFrom(t, 3, Func);
    HolesFrom(t, 2, Func);
    HolesFrom(t, 1, Func);
    HolesFrom(t, 0, Func);
  }

  /** The second half of the MIPS template names the number symbol. */
  lemma MipsNrHolesTail()
    ensures Holes(MipsCall[6..], NrName) == 1
  {
    var t := MipsCall;
    assert t[11..] == [];
    HolesFrom(t, 10, NrName);
    HolesFrom(t, 9, NrName);
    HolesFrom(t, 8, NrName);
    HolesFrom(t, 7, NrName);
    HolesFrom(t, 6, NrName);
  }

  /** The MIPS template names the number symbol once. */
  lemma MipsNrHoles()
    ensures Holes(MipsCall, NrName) == 1
  {
    var t := MipsCall;
    MipsNrHolesTail();
    assert t[0..] == t;
    HolesFrom(t, 5, NrName);
    HolesFrom(t, 4, NrName);
    HolesFrom(t, 3, NrName);
    HolesFrom(t, 2, NrName);
    HolesFrom(t, 1, NrName);
    HolesFrom(t, 0, NrName);
  }

  /** The MIPS stub is fixed text plus four copies of the function name and one number symbol. */
  lemma MipsGenstubLength(call: Syscall, nr: string)
    ensures |MipsGenstub(call, nr)| == LitLength(MipsCall) + 4 * |call.func| + |nr|
  {
    RenderLength(MipsCall, call.func, nr);
    HoleLengthByCount(MipsCall, call.func, nr);
    MipsFuncHoles();
    MipsNrHoles();
  }

  /** The registers the kernel reads x86 syscall arguments from, in order. */
  const X86Registers: seq<Reg> := [Ebx, Ecx, Edx, Esi, Edi, Ebp]

  /** Save the first k argument registers. */
  function Pushes(k: nat): (s: seq<Insn>)
    requires k <= |X86Registers|
    ensures |s| == k
  {
    seq(k, r requires 0 <= r < k => Push(X86Registers[r]))
  }

  /**
   * Load argument word r into register r. After n pushes, the caller's
   * arguments start past the n saved words and the return address.
   */
  function Loads(n: nat, k: nat): (s: seq<Insn>)
    requires k <= |X86Registers|
    ensures |s| == k
  {
    seq(k, r requires 0 <= r < k => LoadArg(4 + 4 * n + 4 * r, X86Registers[r]))
  }

  /** Restore the first k of n saved registers, last saved first. */
  function Pops(n: nat, k: nat): (s: seq<Insn>)
    requires k <= n <= |X86Registers|
    ensures |s| == k
  {
    seq(k, r requires 0 <= r < k => Pop(X86Registers[n - 1 - r]))
  }

  lemma PushesSnoc(k: nat)
    requires k < |X86Registers|
    ensures Pushes(k + 1) == Pushes(k) + [Push(X86Registers[k])]
  {
  }

  lemma LoadsSnoc(n: nat, k: nat)
    requires k < |X86Registers|
    ensures Loads(n, k + 1) == Loads(n, k) + [LoadArg(4 + 4 * n + 4 * k, X86Registers[k])]
  {
  }

  lemma PopsSnoc(n: nat, k: nat)
    requires k < n <= |X86Registers|
    ensures Pops(n, k + 1) == Pops(n, k) + [Pop(X86Registers[n - 1 - k])]
  {
  }

  /** The x86 stub around its register set-up and tear-down. */
  function X86Frame(call: Syscall, nr: string, setup: seq<Insn>, teardown: seq<Insn>): string {
    Render(SyscallStubHeader, call.func, nr) + Text(setup) + Render(X86Call, call.func, nr)
    + Text(teardown) + Render(X86Return, call.func, nr)
  }

  /** The x86 stub for a row with n <= 6 argument words. */
  function X86Stub(call: Syscall, nr: string): string
    requires GenericCount(call.params) <= |X86Registers|
  {
    var n := GenericCount(call.params);
    X86Frame(call, nr, Pushes(n) + Loads(n, n), Pops(n, n))
  }

  /** The push loop of x86_genstub: save the first n argument registers. */
  method EmitPushes(n: nat) returns (text: string)
    requires n <= |X86Registers|
    ensures text == Text(Pushes(n))
  {
    text := "";
    for r := 0 to n
      invariant text == Text(Pushes(r))
    {
      var line := "    pushl   " + RegName(X86Registers[r]) + "\n";
      PushesSnoc(r);
      TextSnoc(Pushes(r), Push(X86Registers[r]));
      text := text + line;
    }
  }

  /** The load loop of x86_genstub, with the stack bias left by n pushes. */
  method EmitLoads(n: nat, stackBias: nat) returns (text: string)
    requires n <= |X86Registers| && stackBias == 4 + 4 * n
    ensures text == Text(Loads(n, n))
  {
    text := "";
    for r := 0 to n
      invariant text == Text(Loads(n, r))
    {
      var offset := stackBias + r * 4;
      var reg := X86Registers[r];
      var line := "    mov     " + Decimal(offset) + "(%esp), " + RegName(reg) + "\n";
      LoadsSnoc(n, r);
      TextSnoc(Loads(n, r), LoadArg(offset, reg));
      text := text + line;
    }
  }

  /** The pop loop of x86_genstub: restore the n saved registers, last saved first. */
  method EmitPops(n: nat) returns (text: string)
    requires n <= |X86Registers|
    ensures text == Text(Pops(n, n))
  {
    text := "";
    for r := 0 to n
      invariant text == Text(Pops(n, r))
    {
      var line := "    popl    " + RegName(X86Registers[n - r - 1]) + "\n";
      PopsSnoc(n, r);
      TextSnoc(Pops(n, r), Pop(X86Registers[n - r - 1]));
      text := text + line;
    }
  }

  /**
   * x86_genstub: fails (the register table is indexed past its end, at the
   * seventh push) when more than six argument words are needed.
   */
  method X86Genstub(call: Syscall, nr: string) returns (res: Result<string, GenError>)
    ensures GenericCount(call.params) <= |X86Registers| ==> res == Ok(X86Stub(call, nr))
    ensures GenericCount(call.params) > |X86Registers| ==> res == Err(TooManyX86Params)
  {
    var numParams := CountGenericParamRegisters(call.params);
    if numParams > |X86Registers| {
      return Err(TooManyX86Params);
    }
    var pushes := EmitPushes(numParams);
    var stackBias := 4 + 4 * numParams;
    var loads := EmitLoads(numParams, stackBias);
    var pops := EmitPops(numParams);
    var result := Render(SyscallStubHeader, call.func, nr) + pushes + loads + Render(X86Call, call.func, nr)
      + pops + Render(X86Return, call.func, nr);
    TextAppend(Pushes(numParams), Loads(numParams, numParams));
    AppendAssoc(Render(SyscallStubHeader, call.func, nr), pushes, loads);
    assert result == X86Frame(call, nr, Pushes(numParams) + Loads(numParams, numParams), Pops(numParams, numParams));
    return Ok(result);
  }

  /**
   * The socketcall set-up: save %ebx and %ecx, put the dispatch id in %ebx
   * and the address of the caller's arguments (past the return address and
   * the two saved words) in %ecx.
   */
  function SocketcallSetup(id: nat, bias: nat): seq<Insn> {
    [Push(Ebx), Push(Ecx), MovImm(id, Ebx), MovEsp(Ecx), AddImm(bias, Ecx)]
  }

  const SocketcallTeardown: seq<Insn> := [Pop(Ecx), Pop(Ebx)]

  /** x86_genstub_socketcall: the vectored-call stub for a row with a dispatch id. */
  function X86GenstubSocketcall(call: Syscall, nr: string): string
    requires call.socketcallId >= 0
  {
    var bias := 4;
    var bias := bias + 4;   // after saving %ebx
    var bias := bias + 4;   // after saving %ecx
    X86Frame(call, nr, SocketcallSetup(call.socketcallId, bias), SocketcallTeardown)
  }

  /**
   * The one x86-64 register fix-up: the C convention passes the 4th argument
   * in %rcx, the kernel expects it in %r10.
   */
  function X86_64Remap(n: nat): seq<Insn> {
    if n > 3 then [MovQ(Rcx, R10)] else []
  }

  /** x86_64_genstub. */
  function X86_64Genstub(call: Syscall, nr: string): string {
    Render(SyscallStubHeader, call.func, nr) + Text(X86_64Remap(Generic64Count(call.params)))
    + Render(X86_64Call, call.func, nr)
  }

  /** The x86-64 stub copies %rcx to %r10 iff the function has more than three parameters. */
  lemma X86_64RemapIff(call: Syscall)
    ensures MovQ(Rcx, R10) in X86_64Remap(Generic64Count(call.params)) <==> |call.params| > 3
    ensures |X86_64Remap(Generic64Count(call.params))| <= 1
  {
  }

  /** The save, load and restore lines of the x86 stub, one by one. */
  lemma X86Shape(n: nat, r: nat)
    requires r < n <= |X86Registers|
    ensures (Pushes(n) + Loads(n, n))[r] == Push(X86Registers[r])
    ensures (Pushes(n) + Loads(n, n))[n + r] == LoadArg(4 + 4 * n + 4 * r, X86Registers[r])
    ensures Pops(n, n)[r] == Pop(X86Registers[n - 1 - r])
    ensures |Pushes(n) + Loads(n, n)| == 2 * n && |Pops(n, n)| == n
  {
  }
}
