/**
 * The text vocabulary of generated syscall stubs (gensyscalls.py).
 *
 * A template is the tool's `%(name)s` format string: literal text with two
 * kinds of holes, the C function name (`%(func)s`) and the syscall-number
 * symbol (`%(__NR_name)s`). Lines the tool builds one by one are instructions
 * of a small datatype, each with the exact text the tool writes for it.
 */
module StubText {

  datatype Piece = Lit(text: string) | Func | NrName

  type Template = seq<Piece>

  function PieceText(p: Piece, func: string, nr: string): string {
    match p
    case Lit(text) => text
    case Func => func
    case NrName => nr
  }

  /** Python's `template % syscall` for the two fields the templates use. */
  function Render(t: Template, func: string, nr: string): string {
    if t == [] then "" else PieceText(t[0], func, nr) + Render(t[1..], func, nr)
  }

  lemma {:induction false} RenderAppend(a: Template, b: Template, func: string, nr: string)
    ensures Render(a + b, func, nr) == Render(a, func, nr) + Render(b, func, nr)
  {
    if a != [] {
      assert (a + b)[1..] == a[1..] + b;
      RenderAppend(a[1..], b, func, nr);
    } else {
      assert a + b == b;
    }
  }

  /** Number of literal characters in a template. */
  function LitLength(t: Template): nat {
    if t == [] then 0 else (if t[0].Lit? then |t[0].text| else 0) + LitLength(t[1..])
  }

  /** Characters the names filled into a template's holes add. */
  function HoleLength(t: Template, func: string, nr: string): nat {
    if t == [] then 0 else |PieceText(t[0], func, nr)| - (if t[0].Lit? then |t[0].text| else 0) + HoleLength(t[1..], func, nr)
  }

  /** A rendered template is its literal text plus the names filled into its holes. */
  lemma {:induction false} RenderLength(t: Template, func: string, nr: string)
    ensures |Render(t, func, nr)| == LitLength(t) + HoleLength(t, func, nr)
  {
    if t != [] {
      RenderLength(t[1..], func, nr);
    }
  }

  /** Number of holes of one kind in a template. */
  function Holes(t: Template, hole: Piece): nat {
    if t == [] then 0 else (if t[0] == hole then 1 else 0) + Holes(t[1..], hole)
  }

  /** Each function-name hole adds |func| characters and each number hole |nr|. */
  lemma {:induction false} HoleLengthByCount(t: Template, func: string, nr: string)
    ensures HoleLength(t, func, nr) == Holes(t, Func) * |func| + Holes(t, NrName) * |nr|
  {
    if t != [] {
      HoleLengthByCount(t[1..], func, nr);
      var hf, hn := Holes(t[1..], Func), Holes(t[1..], NrName);
      MulSucc(hf, |func|);
      MulSucc(hn, |nr|);
    }
  }

  lemma MulSucc(k: nat, m: nat)
    ensures (k + 1) * m == k * m + m
  {
  }

  /** One step of Render, taken at position k. */
  lemma RenderFrom(t: Template, k: nat, func: string, nr: string)
    requires k < |t|
    ensures Render(t[k..], func, nr) == PieceText(t[k], func, nr) + Render(t[k + 1..], func, nr)
  {
    assert t[k..][1..] == t[k + 1..];
  }

  /** One step of Holes, taken at position k. */
  lemma HolesFrom(t: Template, k: nat, hole: Piece)
    requires k < |t|
    ensures Holes(t[k..], hole) == (if t[k] == hole then 1 else 0) + Holes(t[k + 1..], hole)
  {
    assert t[k..][1..] == t[k + 1..];
  }

  /** Python's `"%d" % n` for a non-negative n. */
  function Decimal(n: nat): string {
    if n < 10 then [Digit(n)] else Decimal(n / 10) + [Digit(n % 10)]
  }

  function Digit(d: nat): char
    requires d < 10
  {
    "0123456789"[d]
  }

  predicate IsDigit(c: char) {
    '0' <= c <= '9'
  }

  /** The number a string of decimal digits spells. */
  function DecimalValue(s: string): nat
    requires forall k :: 0 <= k < |s| ==> IsDigit(s[k])
  {
    if s == [] then 0
    else
      assert IsDigit(s[|s| - 1]);
      10 * DecimalValue(s[..|s| - 1]) + (s[|s| - 1] as int - '0' as int) as nat
  }

  /** `"%d" % n` spells n in decimal digits, without a leading zero. */
  lemma {:induction false} DecimalRoundTrip(n: nat)
    ensures |Decimal(n)| >= 1 && forall k :: 0 <= k < |Decimal(n)| ==> IsDigit(Decimal(n)[k])
    ensures DecimalValue(Decimal(n)) == n
    ensures |Decimal(n)| > 1 ==> Decimal(n)[0] != '0'
  {
    if n >= 10 {
      DecimalRoundTrip(n / 10);
      var d := Decimal(n);
      assert d[..|d| - 1] == Decimal(n / 10);
    }
  }

  /** A larger number never has fewer digits. */
  lemma {:induction false} DecimalLengthMono(a: nat, b: nat)
    requires a <= b
    ensures |Decimal(a)| <= |Decimal(b)|
  {
    if a >= 10 {
      DecimalLengthMono(a / 10, b / 10);
    }
  }

  datatype Reg = Ebx | Ecx | Edx | Esi | Edi | Ebp | Rdi | Rsi | Rdx | Rcx | R8 | R9 | R10

  function RegName(r: Reg): string {
    match r
    case Ebx => "%ebx"
    case Ecx => "%ecx"
    case Edx => "%edx"
    case Esi => "%esi"
    case Edi => "%edi"
    case Ebp => "%ebp"
    case Rdi => "%rdi"
    case Rsi => "%rsi"
    case Rdx => "%rdx"
    case Rcx => "%rcx"
    case R8 => "%r8"
    case R9 => "%r9"
    case R10 => "%r10"
  }

  /** The instructions the stub builders emit line by line. */
  datatype Insn =
    | Push(r: Reg)                 // save a register on the stack
    | Pop(r: Reg)                  // restore a register from the stack
    | LoadArg(offset: nat, r: Reg) // load the word at offset(%esp)
    | MovImm(imm: nat, r: Reg)     // load a constant
    | MovEsp(r: Reg)               // copy the stack pointer
    | AddImm(imm: nat, r: Reg)     // add a constant
    | MovQ(src: Reg, dst: Reg)     // 64-bit register copy

  function InsnText(i: Insn): string {
    match i
    case Push(r) => "    pushl   " + RegName(r) + "\n"
    case Pop(r) => "    popl    " + RegName(r) + "\n"
    case LoadArg(off, r) => "    mov     " + Decimal(off) + "(%esp), " + RegName(r) + "\n"
    case MovImm(v, r) => "    mov     $" + Decimal(v) + ", " + RegName(r) + "\n"
    case MovEsp(r) => "    mov     %esp, " + RegName(r) + "\n"
    case AddImm(v, r) => "    addl    $" + Decimal(v) + ", " + RegName(r) + "\n"
    case MovQ(s, d) => "    movq    " + RegName(s) + ", " + RegName(d) + "\n"
  }

  /** The lines of an instruction list, in order. */
  function Text(insns: seq<Insn>): string {
    if insns == [] then "" else InsnText(insns[0]) + Text(insns[1..])
  }

  lemma {:induction false} TextAppend(a: seq<Insn>, b: seq<Insn>)
    ensures Text(a + b) == Text(a) + Text(b)
  {
    if a != [] {
      assert (a + b)[1..] == a[1..] + b;
      TextAppend(a[1..], b);
    } else {
      assert a + b == b;
    }
  }

  lemma AppendAssoc(a: string, b: string, c: string)
    ensures a + (b + c) == (a + b) + c
  {
  }

  /** Appending one instruction appends its line. */
  lemma TextSnoc(a: seq<Insn>, i: Insn)
    ensures Text(a + [i]) == Text(a) + InsnText(i)
  {
    TextAppend(a, [i]);
    assert [i][1..] == [];
  }
}
