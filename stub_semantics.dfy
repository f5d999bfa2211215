/**
 * What the generated instruction lines do.
 *
 * A small machine runs the `Insn`s the x86 and x86-64 builders emit, so that
 * the calling-convention promises of the stubs can be proved: the i386 stub
 * moves the caller's stack arguments into the registers the kernel reads and
 * restores the registers it borrowed; the socketcall stub hands the kernel
 * the dispatch id and the address of the arguments; the x86-64 stub moves the
 * fourth argument from the C register to the kernel register.
 */
module StubSemantics {
  import opened StubText
  import opened SyscallStubs

  /** Registers, stack pointer and memory (one word per address). */
  datatype Machine = Machine(reg: Reg -> int, esp: int, mem: int -> int)

  function SetReg(f: Reg -> int, r: Reg, v: int): Reg -> int {
    x => if x == r then v else f(x)
  }

  function Store(f: int -> int, a: int, v: int): int -> int {
    x => if x == a then v else f(x)
  }

  /** One instruction; words are four bytes and the stack grows downwards. */
  function Step(m: Machine, i: Insn): Machine {
    match i
    case Push(r) => m.(esp := m.esp - 4, mem := Store(m.mem, m.esp - 4, m.reg(r)))
    case Pop(r) => m.(reg := SetReg(m.reg, r, m.mem(m.esp)), esp := m.esp + 4)
    case LoadArg(off, r) => m.(reg := SetReg(m.reg, r, m.mem(m.esp + off)))
    case MovImm(v, r) => m.(reg := SetReg(m.reg, r, v))
    case MovEsp(r) => m.(reg := SetReg(m.reg, r, m.esp))
    case AddImm(v, r) => m.(reg := SetReg(m.reg, r, m.reg(r) + v))
    case MovQ(s, d) => m.(reg := SetReg(m.reg, d, m.reg(s)))
  }

  function Run(m: Machine, insns: seq<Insn>): Machine
    decreases |insns|
  {
    if insns == [] then m else Run(Step(m, insns[0]), insns[1..])
  }

  lemma {:induction false} RunAppend(m: Machine, a: seq<Insn>, b: seq<Insn>)
    ensures Run(m, a + b) == Run(Run(m, a), b)
    decreases |a|
  {
    if a == [] {
      assert a + b == b;
    } else {
      assert (a + b)[1..] == a[1..] + b;
      RunAppend(Step(m, a[0]), a[1..], b);
    }
  }

  lemma RunSnoc(m: Machine, a: seq<Insn>, i: Insn)
    ensures Run(m, a + [i]) == Step(Run(m, a), i)
  {
    RunAppend(m, a, [i]);
    assert [i][1..] == [];
  }

  /** Argument j of a cdecl call, at entry: past the return address on the stack. */
  function Arg(m: Machine, j: nat): int {
    m.mem(m.esp + 4 + 4 * j)
  }

  /** The x86 argument registers are pairwise distinct. */
  lemma X86RegistersDistinct()
    ensures forall i, j :: 0 <= i < j < |X86Registers| ==> X86Registers[i] != X86Registers[j]
  {
  }

  /** The push loop saves register j just below the entry stack pointer, 4(j+1) bytes down. */
  lemma {:induction false} PushesEffect(m: Machine, k: nat)
    requires k <= |X86Registers|
    ensures Run(m, Pushes(k)).esp == m.esp - 4 * k
    ensures Run(m, Pushes(k)).reg == m.reg
    ensures forall j :: 0 <= j < k ==> Run(m, Pushes(k)).mem(m.esp - 4 * (j + 1)) == m.reg(X86Registers[j])
    ensures forall a :: a >= m.esp ==> Run(m, Pushes(k)).mem(a) == m.mem(a)
  {
    if k > 0 {
      PushesEffect(m, k - 1);
      PushesSnoc(k - 1);
      RunSnoc(m, Pushes(k - 1), Push(X86Registers[k - 1]));
    }
  }

  /** The load loop fills register j from offset 4 + 4n + 4j and touches nothing else. */
  lemma {:induction false} LoadsEffect(m: Machine, n: nat, k: nat)
    requires k <= |X86Registers|
    ensures Run(m, Loads(n, k)).esp == m.esp
    ensures Run(m, Loads(n, k)).mem == m.mem
    ensures forall j :: 0 <= j < k ==> Run(m, Loads(n, k)).reg(X86Registers[j]) == m.mem(m.esp + 4 + 4 * n + 4 * j)
    ensures forall r :: r !in X86Registers[..k] ==> Run(m, Loads(n, k)).reg(r) == m.reg(r)
  {
    if k > 0 {
      LoadsEffect(m, n, k - 1);
      LoadsSnoc(n, k - 1);
      RunSnoc(m, Loads(n, k - 1), LoadArg(4 + 4 * n + 4 * (k - 1), X86Registers[k - 1]));
      X86RegistersDistinct();
      assert X86Registers[..k] == X86Registers[..k - 1] + [X86Registers[k - 1]];
    }
  }

  /** Pop j of n restores register n-1-j from the word 4j above the stack pointer. */
  lemma {:induction false} PopsEffect(m: Machine, n: nat, k: nat)
    requires k <= n <= |X86Registers|
    ensures Run(m, Pops(n, k)).esp == m.esp + 4 * k
    ensures Run(m, Pops(n, k)).mem == m.mem
    ensures forall j :: 0 <= j < k ==> Run(m, Pops(n, k)).reg(X86Registers[n - 1 - j]) == m.mem(m.esp + 4 * j)
  {
    if k > 0 {
      PopsEffect(m, n, k - 1);
      PopsSnoc(n, k - 1);
      RunSnoc(m, Pops(n, k - 1), Pop(X86Registers[n - 1 - (k - 1)]));
      X86RegistersDistinct();
    }
  }

  /**
   * The i386 stub's set-up leaves C argument j in the j-th kernel argument
   * register (%ebx, %ecx, %edx, %esi, %edi, %ebp), with n words pushed.
   */
  lemma X86StubPassesArguments(m0: Machine, n: nat)
    requires n <= |X86Registers|
    ensures Run(m0, Pushes(n) + Loads(n, n)).esp == m0.esp - 4 * n
    ensures forall j :: 0 <= j < n ==> Run(m0, Pushes(n) + Loads(n, n)).reg(X86Registers[j]) == Arg(m0, j)
  {
    RunAppend(m0, Pushes(n), Loads(n, n));
    var mp := Run(m0, Pushes(n));
    PushesEffect(m0, n);
    LoadsEffect(mp, n, n);
    forall j | 0 <= j < n
      ensures Run(mp, Loads(n, n)).reg(X86Registers[j]) == Arg(m0, j)
    {
      assert mp.esp + 4 + 4 * n + 4 * j == m0.esp + 4 + 4 * j;
    }
  }

  /** After the set-up, the word 4(j+1) bytes below the entry stack pointer holds saved register j. */
  lemma X86StubSavesRegisters(m0: Machine, n: nat)
    requires n <= |X86Registers|
    ensures forall j :: 0 <= j < n ==>
              Run(m0, Pushes(n) + Loads(n, n)).mem(m0.esp - 4 * (j + 1)) == m0.reg(X86Registers[j])
  {
    RunAppend(m0, Pushes(n), Loads(n, n));
    PushesEffect(m0, n);
    LoadsEffect(Run(m0, Pushes(n)), n, n);
  }

  /** Popping n saved words gives register j the word 4(n-1-j) bytes above the stack pointer. */
  lemma PopsRestore(mk: Machine, n: nat, saved: Reg -> int)
    requires n <= |X86Registers|
    requires forall j :: 0 <= j < n ==> mk.mem(mk.esp + 4 * (n - 1 - j)) == saved(X86Registers[j])
    ensures Run(mk, Pops(n, n)).esp == mk.esp + 4 * n
    ensures forall j :: 0 <= j < n ==> Run(mk, Pops(n, n)).reg(X86Registers[j]) == saved(X86Registers[j])
  {
    PopsEffect(mk, n, n);
    forall j | 0 <= j < n
      ensures Run(mk, Pops(n, n)).reg(X86Registers[j]) == saved(X86Registers[j])
    {
      var j' := n - 1 - j;
      assert X86Registers[n - 1 - j'] == X86Registers[j];
    }
  }

  /**
   * Whatever the kernel does in between, as long as it hands back the same
   * stack pointer and leaves the saved words alone, the stub's tear-down
   * gives every borrowed register its value at entry and pops the stack
   * back to where the caller left it.
   */
  lemma X86StubRestoresRegisters(m0: Machine, n: nat, mk: Machine)
    requires n <= |X86Registers|
    requires mk.esp == m0.esp - 4 * n
    requires forall a :: mk.esp <= a < m0.esp ==> mk.mem(a) == Run(m0, Pushes(n) + Loads(n, n)).mem(a)
    ensures Run(mk, Pops(n, n)).esp == m0.esp
    ensures forall j :: 0 <= j < n ==> Run(mk, Pops(n, n)).reg(X86Registers[j]) == m0.reg(X86Registers[j])
  {
    X86StubSavesRegisters(m0, n);
    forall j | 0 <= j < n
      ensures mk.mem(mk.esp + 4 * (n - 1 - j)) == m0.reg(X86Registers[j])
    {
      var a := m0.esp - 4 * (j + 1);
      assert mk.esp + 4 * (n - 1 - j) == a && mk.esp <= a < m0.esp;
    }
    PopsRestore(mk, n, m0.reg);
  }

  /** The socketcall stub's set-up, with the bias x86_genstub_socketcall computes. */
  function SocketcallSetupFor(id: nat): seq<Insn> {
    var bias := 4 + 4 + 4;
    SocketcallSetup(id, bias)
  }

  /**
   * After the socketcall set-up %ebx holds the dispatch id and %ecx the
   * address of the caller's first argument; the two borrowed registers sit
   * on the stack.
   */
  lemma SocketcallPassesVector(m0: Machine, id: nat)
    ensures Run(m0, SocketcallSetupFor(id)).reg(Ebx) == id
    ensures Run(m0, SocketcallSetupFor(id)).reg(Ecx) == m0.esp + 4
    ensures Run(m0, SocketcallSetupFor(id)).esp == m0.esp - 8
    ensures Run(m0, SocketcallSetupFor(id)).mem(m0.esp - 4) == m0.reg(Ebx)
    ensures Run(m0, SocketcallSetupFor(id)).mem(m0.esp - 8) == m0.reg(Ecx)
  {
    var s := SocketcallSetupFor(id);
    var m1 := Step(m0, s[0]);
    var m2 := Step(m1, s[1]);
    var m3 := Step(m2, s[2]);
    var m4 := Step(m3, s[3]);
    var m5 := Step(m4, s[4]);
    assert s[5..] == [];
    assert Run(m4, s[4..]) == m5 by { assert s[4..][1..] == s[5..]; }
    assert Run(m3, s[3..]) == m5 by { assert s[3..][1..] == s[4..]; }
    assert Run(m2, s[2..]) == m5 by { assert s[2..][1..] == s[3..]; }
    assert Run(m1, s[1..]) == m5 by { assert s[1..][1..] == s[2..]; }
  }

  /** The socketcall tear-down puts %ecx and %ebx back from the two saved words. */
  lemma SocketcallRestores(mk: Machine)
    ensures Run(mk, SocketcallTeardown).reg(Ecx) == mk.mem(mk.esp)
    ensures Run(mk, SocketcallTeardown).reg(Ebx) == mk.mem(mk.esp + 4)
    ensures Run(mk, SocketcallTeardown).esp == mk.esp + 8
  {
    RunSnoc(mk, [Pop(Ecx)], Pop(Ebx));
    assert [Pop(Ecx)] + [Pop(Ebx)] == SocketcallTeardown;
    assert Run(mk, [Pop(Ecx)]) == Step(mk, Pop(Ecx)) by { RunSnoc(mk, [], Pop(Ecx)); }
  }

  /**
   * x86_genstub_socketcall builds its stub from this set-up and tear-down:
   * in the stub, %ebx holds the dispatch id and %ecx the address of the
   * caller's first argument when the kernel is entered, and when the kernel
   * call leaves the stack pointer and the two saved words as they were, the
   * tear-down gives the caller back its %ebx, %ecx and stack pointer.
   */
  lemma SocketcallStub(call: Syscall, nr: string, m0: Machine, mk: Machine)
    requires call.socketcallId >= 0
    requires mk.esp == Run(m0, SocketcallSetupFor(call.socketcallId)).esp
    requires mk.mem(mk.esp) == Run(m0, SocketcallSetupFor(call.socketcallId)).mem(mk.esp)
    requires mk.mem(mk.esp + 4) == Run(m0, SocketcallSetupFor(call.socketcallId)).mem(mk.esp + 4)
    ensures X86GenstubSocketcall(call, nr) == X86Frame(call, nr, SocketcallSetupFor(call.socketcallId), SocketcallTeardown)
    ensures Run(m0, SocketcallSetupFor(call.socketcallId)).reg(Ebx) == call.socketcallId
    ensures Run(m0, SocketcallSetupFor(call.socketcallId)).reg(Ecx) == m0.esp + 4
    ensures Run(mk, SocketcallTeardown).reg(Ebx) == m0.reg(Ebx)
    ensures Run(mk, SocketcallTeardown).reg(Ecx) == m0.reg(Ecx)
    ensures Run(mk, SocketcallTeardown).esp == m0.esp
  {
    SocketcallPassesVector(m0, call.socketcallId);
    SocketcallRestores(mk);
  }

  /**
   * x86_64_genstub: the header, the register fix-up for the number of
   * parameters, and the fixed call.
   */
  lemma X86_64GenstubShape(call: Syscall, nr: string)
    ensures X86_64Genstub(call, nr) == Render(SyscallStubHeader, call.func, nr)
              + Text(X86_64Remap(|call.params|)) + Render(X86_64Call, call.func, nr)
  {
  }

  /**
   * The register fix-up of x86_64_genstub is the single line
   * "movq %rcx, %r10" when the function has more than three parameters and
   * nothing otherwise, and after it each kernel argument register holds the
   * C argument of the same position.
   */
  lemma X86_64Stub(call: Syscall, m: Machine, j: nat)
    requires j < |call.params| && j < |KernelArgRegisters|
    ensures Text(X86_64Remap(|call.params|)) == if |call.params| > 3 then "    movq    %rcx, %r10\n" else ""
    ensures Run(m, X86_64Remap(|call.params|)).reg(KernelArgRegisters[j]) == m.reg(CArgRegisters[j])
  {
    X86_64PassesArguments(m, |call.params|, j);
  }

  /** Registers the x86-64 kernel reads its six arguments from. */
  const KernelArgRegisters: seq<Reg> := [Rdi, Rsi, Rdx, R10, R8, R9]

  /** Registers the x86-64 C convention passes the first six arguments in. */
  const CArgRegisters: seq<Reg> := [Rdi, Rsi, Rdx, Rcx, R8, R9]

  /**
   * After the x86-64 stub's fix-up, each of the first min(n, 6) kernel
   * argument registers holds the C argument of the same position.
   */
  lemma X86_64PassesArguments(m: Machine, n: nat, j: nat)
    requires j < n && j < |KernelArgRegisters|
    ensures Run(m, X86_64Remap(n)).reg(KernelArgRegisters[j]) == m.reg(CArgRegisters[j])
  {
    if n > 3 {
      assert X86_64Remap(n)[1..] == [];
    }
  }
}
