/**
 * Register/stack layout of syscall parameter lists (gensyscalls.py).
 *
 * A parameter is a raw C type string. The analyzer decides which parameters
 * are 64-bit scalars and counts the machine words a parameter list needs
 * under three rules: the generic 32-bit rule, the ARM EABI rule (64-bit
 * values start in an even register, section 5.5 rule C.3 of the Procedure
 * Call Standard for the Arm Architecture) and the native 64-bit rule.
 *
 * Each counter exists twice: a specification function over prefixes of the
 * list, and the accumulator loop of the tool, proved equal to it.
 */
module SyscallLayout {

  /** The characters Python 2's str.strip() removes from a byte string. */
  predicate IsSpace(c: char) {
    c == ' ' || c == '\t' || c == '\n' || c == '\r' || c == '\U{000B}' || c == '\U{000C}'
  }

  function StripLeft(s: string): string {
    if |s| > 0 && IsSpace(s[0]) then StripLeft(s[1..]) else s
  }

  function StripRight(s: string): string {
    if |s| > 0 && IsSpace(s[|s| - 1]) then StripRight(s[..|s| - 1]) else s
  }

  /** Python's str.strip(): leading and trailing whitespace removed. */
  function Strip(s: string): string {
    StripRight(StripLeft(s))
  }

  /** StripLeft drops a run of leading whitespace and keeps the rest. */
  lemma {:induction false} StripLeftFacts(s: string)
    ensures |StripLeft(s)| <= |s| && StripLeft(s) == s[|s| - |StripLeft(s)|..]
    ensures forall k :: 0 <= k < |s| - |StripLeft(s)| ==> IsSpace(s[k])
    ensures StripLeft(s) == [] || !IsSpace(StripLeft(s)[0])
  {
    if |s| > 0 && IsSpace(s[0]) {
      StripLeftFacts(s[1..]);
    }
  }

  /** StripRight drops a run of trailing whitespace and keeps the rest. */
  lemma {:induction false} StripRightFacts(s: string)
    ensures |StripRight(s)| <= |s| && StripRight(s) == s[..|StripRight(s)|]
    ensures forall k :: |StripRight(s)| <= k < |s| ==> IsSpace(s[k])
    ensures StripRight(s) == [] || !IsSpace(StripRight(s)[|StripRight(s)| - 1])
  {
    if |s| > 0 && IsSpace(s[|s| - 1]) {
      StripRightFacts(s[..|s| - 1]);
    }
  }

  /** Stripping removes whitespace only, so it keeps every other character. */
  lemma StripKeeps(s: string, c: char)
    requires !IsSpace(c)
    ensures c in Strip(s) <==> c in s
  {
    var l := StripLeft(s);
    var r := StripRight(l);
    StripLeftFacts(s);
    StripRightFacts(l);
    if c in s {
      var k :| 0 <= k < |s| && s[k] == c;
      assert s[|s| - |l| + (k - (|s| - |l|))] == c;
      assert l[k - (|s| - |l|)] == c;
      assert r[k - (|s| - |l|)] == c;
    }
    if c in r {
      var k :| 0 <= k < |r| && r[k] == c;
      assert l[k] == c;
      assert s[|s| - |l| + k] == c;
    }
  }

  /** The spellings of 64-bit scalar types the tool recognises. */
  const Types64: seq<string> := [
    "int64_t", "uint64_t", "loff_t", "off64_t",
    "long long", "unsigned long long", "signed long long"]

  /**
   * param_uses_64bits: the stripped type begins with a 64-bit spelling and
   * is not a pointer.
   */
  function ParamUses64Bits(param: string): bool
  {
    var p := Strip(param);
    if !("int64_t" <= p || "uint64_t" <= p || "loff_t" <= p || "off64_t" <= p
         || "long long" <= p || "unsigned long long" <= p || "signed long long" <= p)
    then false
    else if '*' in p then false
    else true
  }

  /** A type is 64-bit iff its stripped text begins with a listed spelling and it has no '*'. */
  lemma Uses64Iff(param: string)
    ensures ParamUses64Bits(param) <==>
      (exists k :: 0 <= k < |Types64| && Types64[k] <= Strip(param)) && '*' !in param
  {
    var p := Strip(param);
    StripKeeps(param, '*');
    if "int64_t" <= p { assert Types64[0] <= p; }
    else if "uint64_t" <= p { assert Types64[1] <= p; }
    else if "loff_t" <= p { assert Types64[2] <= p; }
    else if "off64_t" <= p { assert Types64[3] <= p; }
    else if "long long" <= p { assert Types64[4] <= p; }
    else if "unsigned long long" <= p { assert Types64[5] <= p; }
    else if "signed long long" <= p { assert Types64[6] <= p; }
    else {
      forall k | 0 <= k < |Types64| ensures !(Types64[k] <= p) {
        assert k in {0, 1, 2, 3, 4, 5, 6};
      }
    }
  }

  /** Number of 64-bit parameters in a list. */
  function Num64(params: seq<string>): (n: nat)
    ensures n <= |params|
  {
    if params == [] then 0
    else Num64(params[..|params| - 1]) + (if ParamUses64Bits(params[|params| - 1]) then 1 else 0)
  }

  /** Words one parameter takes under the 32-bit rules. */
  function Width(param: string): nat {
    if ParamUses64Bits(param) then 2 else 1
  }

  /** count_generic_param_registers: one word per parameter, two per 64-bit one. */
  function GenericCount(params: seq<string>): (n: nat)
    ensures n == |params| + Num64(params)
  {
    if params == [] then 0
    else GenericCount(params[..|params| - 1]) + Width(params[|params| - 1])
  }

  /** count_generic_param_registers64: every parameter is one native word. */
  function Generic64Count(params: seq<string>): (n: nat)
    ensures n == |params|
  {
    if params == [] then 0 else Generic64Count(params[..|params| - 1]) + 1
  }

  /** The ARM counter's step: pad to an even register before a 64-bit value. */
  function ArmStep(count: nat, param: string): nat {
    if ParamUses64Bits(param) then (if count % 2 != 0 then count + 1 else count) + 2
    else count + 1
  }

  /** count_arm_param_registers: the generic count plus at most one pad per 64-bit value. */
  function ArmCount(params: seq<string>): (n: nat)
    ensures GenericCount(params) <= n <= GenericCount(params) + Num64(params)
  {
    if params == [] then 0
    else ArmStep(ArmCount(params[..|params| - 1]), params[|params| - 1])
  }

  /** The first register parameter i occupies under the ARM rule. */
  function ArmStart(params: seq<string>, i: nat): nat
    requires i < |params|
  {
    var c := ArmCount(params[..i]);
    if ParamUses64Bits(params[i]) && c % 2 != 0 then c + 1 else c
  }

  lemma {:induction false} ArmCountMonotone(params: seq<string>, j: nat)
    requires j <= |params|
    ensures ArmCount(params[..j]) <= ArmCount(params)
    decreases |params|
  {
    if j < |params| {
      var init := params[..|params| - 1];
      assert params[..j] == init[..j];
      ArmCountMonotone(init, j);
      assert init == params[..|params| - 1];
    } else {
      assert params[..j] == params;
    }
  }

  /**
   * The ARM layout: parameter i occupies the registers [start, start + width)
   * right after the registers of the parameters before it (one pad at most),
   * inside the total count, and a 64-bit parameter starts at an even register.
   */
  lemma ArmLayout(params: seq<string>, i: nat)
    requires i < |params|
    ensures ArmCount(params[..i]) <= ArmStart(params, i) <= ArmCount(params[..i]) + 1
    ensures ArmStart(params, i) + Width(params[i]) == ArmCount(params[..i + 1]) <= ArmCount(params)
    ensures ParamUses64Bits(params[i]) ==> ArmStart(params, i) % 2 == 0
    ensures !ParamUses64Bits(params[i]) ==> ArmStart(params, i) == ArmCount(params[..i])
  {
    ArmStartFacts(params, i);
    ArmStepAt(params, i);
    ArmCountMonotone(params, i + 1);
  }

  lemma ArmStartFacts(params: seq<string>, i: nat)
    requires i < |params|
    ensures ArmCount(params[..i]) <= ArmStart(params, i) <= ArmCount(params[..i]) + 1
    ensures ParamUses64Bits(params[i]) ==> ArmStart(params, i) % 2 == 0
    ensures !ParamUses64Bits(params[i]) ==> ArmStart(params, i) == ArmCount(params[..i])
  {
    PadFacts(ArmCount(params[..i]), ParamUses64Bits(params[i]));
  }

  /** Padding a count to even before a 64-bit value moves it by at most one. */
  lemma PadFacts(c: nat, wide: bool)
    ensures var s := if wide && c % 2 != 0 then c + 1 else c;
            c <= s <= c + 1 && (wide ==> s % 2 == 0) && (!wide ==> s == c)
  {
  }

  lemma ArmStepAt(params: seq<string>, i: nat)
    requires i < |params|
    ensures ArmCount(params[..i + 1]) == ArmStart(params, i) + Width(params[i])
  {
    assert params[..i + 1][..i] == params[..i];
  }

  /** The even-pair rule never pads a 64-bit value that already starts even. */
  lemma {:induction false} ArmCountNoPadWhenAligned(params: seq<string>)
    requires forall i :: 0 <= i < |params| ==> !ParamUses64Bits(params[i]) || ArmCount(params[..i]) % 2 == 0
    ensures ArmCount(params) == GenericCount(params)
  {
    if params != [] {
      var init := params[..|params| - 1];
      forall i | 0 <= i < |init|
        ensures !ParamUses64Bits(init[i]) || ArmCount(init[..i]) % 2 == 0
      {
        assert init[..i] == params[..i];
      }
      ArmCountNoPadWhenAligned(init);
      assert params[..|params| - 1] == init;
    }
  }

  /** A type with no surrounding whitespace is its own stripped form. */
  lemma StripUnpadded(s: string)
    requires s != [] && !IsSpace(s[0]) && !IsSpace(s[|s| - 1])
    ensures Strip(s) == s
  {
  }

  /** Spellings the tool counts as 64-bit, with or without a parameter name. */
  lemma Uses64Examples()
    ensures ParamUses64Bits("off64_t") && ParamUses64Bits("int64_t")
    ensures ParamUses64Bits("loff_t offset")
  {
    StripUnpadded("off64_t");
    StripUnpadded("int64_t");
    StripUnpadded("loff_t offset");
  }

  /** A plain int, a pointer to a 64-bit value and a qualified spelling are not 64-bit. */
  lemma Uses32Examples()
    ensures !ParamUses64Bits("int")
    ensures !ParamUses64Bits("int64_t*") && !ParamUses64Bits("const int64_t")
  {
    StripUnpadded("int");
    StripUnpadded("int64_t*");
    StripUnpadded("const int64_t");
    assert '*' in "int64_t*" by { assert "int64_t*"[7] == '*'; }
  }

  lemma ArmCountOneInt()
    ensures ArmCount(["int"]) == 1 && ArmCount(["int", "int"]) == 2
  {
    Uses32Examples();
    assert ["int"][..0] == [];
    assert ["int", "int"][..1] == ["int"];
  }

  /** The layouts quoted by the tool's documentation. */
  lemma ArmCountExamples()
    ensures ArmCount(["int", "off64_t"]) == 4
    ensures ArmCount(["int", "int64_t"]) == 4
    ensures ArmCount(["int", "int", "int64_t"]) == 4
    ensures ArmCount(["int64_t"]) == 2
  {
    Uses64Examples();
    ArmCountOneInt();
    assert ["int", "off64_t"][..1] == ["int"];
    assert ArmCount(["int", "off64_t"]) == ArmStep(1, "off64_t");
    assert ["int", "int64_t"][..1] == ["int"];
    assert ArmCount(["int", "int64_t"]) == ArmStep(1, "int64_t");
    assert ["int", "int", "int64_t"][..2] == ["int", "int"];
    assert ArmCount(["int", "int", "int64_t"]) == ArmStep(2, "int64_t");
    assert ["int64_t"][..0] == [];
    assert ArmCount(["int64_t"]) == ArmStep(0, "int64_t");
  }

  /** Whitespace around a type never changes whether it is 64-bit. */
  lemma {:induction false} StripIgnoresPadding(p: string, c: char)
    requires IsSpace(c)
    ensures Strip([c] + p) == Strip(p)
    ensures Strip(p + [c]) == Strip(p)
  {
    assert ([c] + p)[1..] == p;
    StripRightAppendSpace(StripLeft(p), c);
    StripLeftAppendSpace(p, c);
  }

  lemma {:induction false} StripRightAppendSpace(s: string, c: char)
    requires IsSpace(c)
    ensures StripRight(s + [c]) == StripRight(s)
  {
    assert (s + [c])[..|s|] == s;
  }

  lemma {:induction false} StripLeftAppendSpace(s: string, c: char)
    requires IsSpace(c)
    ensures StripRight(StripLeft(s + [c])) == StripRight(StripLeft(s))
    decreases |s|
  {
    if |s| > 0 && IsSpace(s[0]) {
      assert (s + [c])[1..] == s[1..] + [c];
      StripLeftAppendSpace(s[1..], c);
    } else if |s| > 0 {
      assert StripLeft(s + [c]) == s + [c];
      StripRightAppendSpace(s, c);
    } else {
      assert StripLeft([c]) == [];
    }
  }

  lemma Uses64IgnoresPadding(p: string, c: char)
    requires IsSpace(c)
    ensures ParamUses64Bits([c] + p) == ParamUses64Bits(p)
    ensures ParamUses64Bits(p + [c]) == ParamUses64Bits(p)
  {
    StripIgnoresPadding(p, c);
  }

  /** count_generic_param_registers, the tool's loop. */
  method CountGenericParamRegisters(params: seq<string>) returns (count: nat)
    ensures count == GenericCount(params)
  {
    count := 0;
    for i := 0 to |params|
      invariant count == GenericCount(params[..i])
    {
      assert params[..i + 1][..i] == params[..i];
      if ParamUses64Bits(params[i]) {
        count := count + 2;
      } else {
        count := count + 1;
      }
    }
    assert params[..|params|] == params;
  }

  /** count_generic_param_registers64, the tool's loop. */
  method CountGenericParamRegisters64(params: seq<string>) returns (count: nat)
    ensures count == Generic64Count(params)
  {
    count := 0;
    for i := 0 to |params|
      invariant count == i
    {
      count := count + 1;
    }
  }

  /** count_arm_param_registers, the tool's loop. */
  method CountArmParamRegisters(params: seq<string>) returns (count: nat)
    ensures count == ArmCount(params)
  {
    count := 0;
    for i := 0 to |params|
      invariant count == ArmCount(params[..i])
    {
      assert params[..i + 1][..i] == params[..i];
      if ParamUses64Bits(params[i]) {
        if count % 2 != 0 {
          count := count + 1;
        }
        count := count + 2;
      } else {
        count := count + 1;
      }
    }
    assert params[..|params|] == params;
  }
}
