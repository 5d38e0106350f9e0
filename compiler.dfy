/**
 * `DjinnCompiler`: the build-time side of Djinn. It scans the project's
 * classpath, collects build-time variables, lints the scanned classes and
 * generates the bootstrap `main`, which hands the discovered modules,
 * resources and build-time variables to the runtime's `Hook.standardMain`.
 */
module Compiler {
  import opened Diagnostics
  import opened ClassScan
  import opened Bytecode
  import opened Wrappers
  import Seqs
  import AFResourceLint
  import ResourceConstructorLint
  import BuildTimeVariableLint
  import FinalModuleLint
  import AnonymousResourceLint
  import FinalResourceLint

  const BOOTSTRAP_NAME: string := "bz.gsn.djinn.bootstrap.Bootstrapper"
  /** `Type.getInternalName(Hook.class)`. */
  const HOOK: string := "bz/gsn/djinn/hook/Hook"
  const STRING_TYPE: string := "java/lang/String"
  const STRING_ARRAY: string := "[Ljava/lang/String;"
  /** `standardMain(String[], String[], String[])`, returning `void`. */
  const STANDARD_MAIN: Descriptor := Descriptor([STRING_ARRAY, STRING_ARRAY, STRING_ARRAY], "V")

  /** The structured descriptor is the one the generator writes as text: three `String[]` parameters, `void` result. */
  lemma StandardMainDescriptor()
    ensures DescriptorText(STANDARD_MAIN) == "(" + STRING_ARRAY + STRING_ARRAY + STRING_ARRAY + ")V"
  {
    var ps := STANDARD_MAIN.params;
    assert ps[1..][1..][1..] == [];
    assert Concat(ps[1..][1..]) == STRING_ARRAY;
    assert Concat(ps[1..]) == STRING_ARRAY + STRING_ARRAY;
    assert Concat(ps) == STRING_ARRAY + (STRING_ARRAY + STRING_ARRAY);
  }

  // The instruction trace of `generateArray` and `generateBootstrapper`.

  /** The four instructions that store `strings[i]` into the array held in `slot`. */
  function ElementVisits(strings: seq<string>, slot: nat, i: nat): seq<Visit>
    requires i < |strings|
  {
    [Instruction(VarInsn(ALOAD, slot)), Instruction(IntInsn(BIPUSH, i)), Instruction(LdcInsn(strings[i])), Instruction(ZeroInsn(AASTORE))]
  }

  /** The element stores for indices `0 .. n - 1`, in index order. */
  function FillVisits(strings: seq<string>, slot: nat, n: nat): (r: seq<Visit>)
    requires n <= |strings|
    ensures |r| == 4 * n
  {
    if n == 0 then [] else FillVisits(strings, slot, n - 1) + ElementVisits(strings, slot, n - 1)
  }

  /** The three header instructions that allocate the array and store it in `slot`. */
  function HeaderVisits(count: int, slot: nat): seq<Visit>
  {
    [Instruction(IntInsn(BIPUSH, count)), Instruction(TypeInsn(ANEWARRAY, STRING_TYPE)), Instruction(VarInsn(ASTORE, slot))]
  }

  /** What `generateArray(main, strings, String.class, slot)` emits. */
  function ArrayVisits(strings: seq<string>, slot: nat): seq<Visit>
  {
    HeaderVisits(|strings|, slot) + FillVisits(strings, slot, |strings|)
  }

  /** The call and return that end the bootstrap `main`. */
  function CallVisits(): seq<Visit>
  {
    [ Instruction(VarInsn(ALOAD, 1)), Instruction(VarInsn(ALOAD, 2)), Instruction(VarInsn(ALOAD, 3)),
      Instruction(MethodInsn(INVOKESTATIC, HOOK, "standardMain", STANDARD_MAIN, false)),
      Instruction(ZeroInsn(RETURN)) ]
  }

  /** What `generateBootstrapper` emits into `main`: three arrays in slots 1, 2, 3, then the call. */
  function BootstrapVisits(modules: seq<string>, resources: seq<string>, btv: seq<string>): seq<Visit>
  {
    [Code] + ArrayVisits(modules, 1) + ArrayVisits(resources, 2) + ArrayVisits(btv, 3) + CallVisits() + [Maxs(3, 3), End]
  }

  /** `generateArray`: the header, then one element store per string. */
  method GenerateArray(main: MethodVisitor, strings: seq<string>, slot: nat)
    modifies main
    ensures main.visits == old(main.visits) + ArrayVisits(strings, slot)
  {
    main.Visit(Instruction(IntInsn(BIPUSH, |strings|)));
    main.Visit(Instruction(TypeInsn(ANEWARRAY, STRING_TYPE)));
    main.Visit(Instruction(VarInsn(ASTORE, slot)));
    var i := 0;
    while i < |strings|
      invariant 0 <= i <= |strings|
      invariant main.visits == old(main.visits) + HeaderVisits(|strings|, slot) + FillVisits(strings, slot, i)
    {
      main.Visit(Instruction(VarInsn(ALOAD, slot)));
      main.Visit(Instruction(IntInsn(BIPUSH, i)));
      main.Visit(Instruction(LdcInsn(strings[i])));
      main.Visit(Instruction(ZeroInsn(AASTORE)));
      i := i + 1;
    }
  }

  // What the trace means.

  /** The string constants the trace loads, in order. */
  function LdcConstants(visits: seq<Visit>): seq<string>
  {
    if visits == [] then []
    else (if visits[0].Instruction? && visits[0].insn.LdcInsn? then [visits[0].insn.constant] else []) + LdcConstants(visits[1..])
  }

  lemma {:induction false} LdcConstantsAppend(a: seq<Visit>, b: seq<Visit>)
    ensures LdcConstants(a + b) == LdcConstants(a) + LdcConstants(b)
  {
    if a == [] {
      assert a + b == b;
    } else {
      assert (a + b)[1..] == a[1..] + b;
      LdcConstantsAppend(a[1..], b);
    }
  }

  lemma ElementConstants(strings: seq<string>, slot: nat, i: nat)
    requires i < |strings|
    ensures LdcConstants(ElementVisits(strings, slot, i)) == [strings[i]]
  {
    var vs := ElementVisits(strings, slot, i);
    assert LdcConstants(vs[3..]) == [];
    assert LdcConstants(vs[2..]) == [strings[i]] + LdcConstants(vs[3..]);
    assert LdcConstants(vs[1..]) == LdcConstants(vs[2..]);
  }

  lemma {:induction false} FillConstants(strings: seq<string>, slot: nat, n: nat)
    requires n <= |strings|
    ensures LdcConstants(FillVisits(strings, slot, n)) == strings[..n]
  {
    if n > 0 {
      FillConstants(strings, slot, n - 1);
      LdcConstantsAppend(FillVisits(strings, slot, n - 1), ElementVisits(strings, slot, n - 1));
      ElementConstants(strings, slot, n - 1);
      assert strings[..n] == strings[..n - 1] + [strings[n - 1]];
    }
  }

  /** An array trace has 3 + 4n visits, and the constants it loads are the strings themselves, in order. */
  lemma ArrayVisitsSpec(strings: seq<string>, slot: nat)
    ensures |ArrayVisits(strings, slot)| == 3 + 4 * |strings|
    ensures LdcConstants(ArrayVisits(strings, slot)) == strings
  {
    FillConstants(strings, slot, |strings|);
    LdcConstantsAppend(HeaderVisits(|strings|, slot), FillVisits(strings, slot, |strings|));
    var hs := HeaderVisits(|strings|, slot);
    assert LdcConstants(hs[2..]) == [];
    assert LdcConstants(hs[1..]) == [];
    assert strings[..|strings|] == strings;
  }

  /** `strings` as the contents of a JVM `String[]`. */
  function StringArray(strings: seq<string>): (r: seq<Value>)
    ensures |r| == |strings| && forall k :: 0 <= k < |r| ==> r[k] == StrV(strings[k])
  {
    seq(|strings|, k requires 0 <= k < |strings| => StrV(strings[k]))
  }

  /** The array after storing the first `n` strings into a fresh one. */
  function PartlyFilled(strings: seq<string>, n: nat): (r: seq<Value>)
    ensures |r| == |strings|
    ensures forall k :: 0 <= k < |r| ==> r[k] == if k < n then StrV(strings[k]) else NullV
  {
    seq(|strings|, k requires 0 <= k < |strings| => if k < n then StrV(strings[k]) else NullV)
  }

  /** Running an instruction that succeeds, then the rest. */
  lemma RunStep(f: Frame, g: Frame, v: Visit, rest: seq<Visit>)
    requires v.Instruction? && Step(f, v.insn) == Ok(g)
    ensures Run(f, [v] + rest) == Run(g, rest)
  {
    assert ([v] + rest)[1..] == rest;
  }

  /** An instruction that throws ends the run with its exception. */
  lemma RunStepErr(f: Frame, v: Visit, rest: seq<Visit>, e: JvmError)
    requires v.Instruction? && Step(f, v.insn) == Err(e)
    ensures Run(f, [v] + rest) == Err(e)
  {
  }

  /** `aastore` with the array reference, index `i` and `strings[i]` on the stack stores the string and pops all three. */
  lemma ElementStore(f: Frame, strings: seq<string>, a: nat, i: nat)
    requires i < |strings| && !f.returned && a < |f.heap|
    requires f.heap[a] == PartlyFilled(strings, i)
    ensures Step(f.(stack := f.stack + [RefV(a), IntV(i), StrV(strings[i])]), ZeroInsn(AASTORE))
      == Ok(f.(heap := f.heap[a := PartlyFilled(strings, i + 1)]))
  {
    var g := f.(stack := f.stack + [RefV(a), IntV(i), StrV(strings[i])]);
    var n := |g.stack|;
    assert g.stack[n - 3] == RefV(a) && g.stack[n - 2] == IntV(i) && g.stack[n - 1] == StrV(strings[i]);
    assert g.stack[..n - 3] == f.stack;
    assert PartlyFilled(strings, i)[i := StrV(strings[i])] == PartlyFilled(strings, i + 1);
  }

  /** Each group of four stores one string at its index and leaves the stack as it was. */
  lemma ElementRun(f: Frame, strings: seq<string>, slot: nat, a: nat, i: nat)
    requires i < |strings| <= 128
    requires !f.returned && slot in f.locals && f.locals[slot] == RefV(a) && a < |f.heap|
    requires f.heap[a] == PartlyFilled(strings, i)
    ensures Run(f, ElementVisits(strings, slot, i)) == Ok(f.(heap := f.heap[a := PartlyFilled(strings, i + 1)]))
  {
    var f1 := f.(stack := f.stack + [RefV(a)]);
    var f2 := f1.(stack := f1.stack + [IntV(i)]);
    var f3 := f2.(stack := f2.stack + [StrV(strings[i])]);
    var f4 := f.(heap := f.heap[a := PartlyFilled(strings, i + 1)]);
    var vs := ElementVisits(strings, slot, i);
    assert f3.stack == f.stack + [RefV(a), IntV(i), StrV(strings[i])];
    assert f3 == f.(stack := f.stack + [RefV(a), IntV(i), StrV(strings[i])]);
    ElementStore(f, strings, a, i);
    RunStep(f3, f4, vs[3], []);
    assert vs[3..] == [vs[3]] + [];
    assert Step(f2, vs[2].insn) == Ok(f3);
    RunStep(f2, f3, vs[2], vs[3..]);
    assert vs[2..] == [vs[2]] + vs[3..];
    SignedByteSmall(i);
    assert Step(f1, vs[1].insn) == Ok(f2);
    RunStep(f1, f2, vs[1], vs[2..]);
    assert vs[1..] == [vs[1]] + vs[2..];
    assert Step(f, vs[0].insn) == Ok(f1);
    RunStep(f, f1, vs[0], vs[1..]);
    assert vs == [vs[0]] + vs[1..];
  }

  /** The element stores for indices below `n` fill exactly those indices. */
  lemma {:induction false} FillRun(f: Frame, strings: seq<string>, slot: nat, a: nat, n: nat)
    requires n <= |strings| <= 128
    requires !f.returned && slot in f.locals && f.locals[slot] == RefV(a) && a < |f.heap|
    requires f.heap[a] == PartlyFilled(strings, 0)
    ensures Run(f, FillVisits(strings, slot, n)) == Ok(f.(heap := f.heap[a := PartlyFilled(strings, n)]))
  {
    if n == 0 {
      assert f.heap[a := PartlyFilled(strings, 0)] == f.heap;
    } else {
      FillRun(f, strings, slot, a, n - 1);
      var g := f.(heap := f.heap[a := PartlyFilled(strings, n - 1)]);
      RunAppend(f, FillVisits(strings, slot, n - 1), ElementVisits(strings, slot, n - 1));
      ElementRun(g, strings, slot, a, n - 1);
      assert g.heap[a := PartlyFilled(strings, n)] == f.heap[a := PartlyFilled(strings, n)];
    }
  }

  /**
   * The array header allocates a fresh null-filled array of the size `bipush`
   * leaves of `count`, and stores it in `slot`; for `count <= 127` that size is `count`.
   */
  lemma HeaderRun(f: Frame, count: int, slot: nat)
    requires 0 <= SignedByte(count) && !f.returned
    ensures Run(f, HeaderVisits(count, slot)) ==
      Ok(f.(heap := f.heap + [seq(SignedByte(count), _ => NullV)], locals := f.locals[slot := RefV(|f.heap|)]))
  {
    var c := SignedByte(count);
    var f1 := f.(stack := f.stack + [IntV(c)]);
    var f2 := f.(stack := f.stack + [RefV(|f.heap|)], heap := f.heap + [seq(c, _ => NullV)]);
    var f3 := f.(heap := f.heap + [seq(c, _ => NullV)], locals := f.locals[slot := RefV(|f.heap|)]);
    var vs := HeaderVisits(count, slot);
    assert f2.stack[..|f2.stack| - 1] == f.stack;
    assert Step(f2, vs[2].insn) == Ok(f3);
    RunStep(f2, f3, vs[2], []);
    assert vs[2..] == [vs[2]] + [];
    assert f1.stack[..|f1.stack| - 1] == f.stack;
    assert Step(f1, vs[1].insn) == Ok(f2);
    RunStep(f1, f2, vs[1], vs[2..]);
    assert vs[1..] == [vs[1]] + vs[2..];
    assert Step(f, vs[0].insn) == Ok(f1);
    RunStep(f, f1, vs[0], vs[1..]);
    assert vs == [vs[0]] + vs[1..];
  }

  /**
   * With at most 127 strings, the generated code leaves a `String[]` holding
   * exactly `strings`, in order, in local `slot`, and the stack as it was.
   */
  lemma ArrayRun(f: Frame, strings: seq<string>, slot: nat)
    requires |strings| <= 127 && !f.returned
    ensures Run(f, ArrayVisits(strings, slot)) ==
      Ok(f.(heap := f.heap + [StringArray(strings)], locals := f.locals[slot := RefV(|f.heap|)]))
  {
    var a := |f.heap|;
    var g := f.(heap := f.heap + [seq(|strings|, _ => NullV)], locals := f.locals[slot := RefV(a)]);
    SignedByteSmall(|strings|);
    HeaderRun(f, |strings|, slot);
    RunAppend(f, HeaderVisits(|strings|, slot), FillVisits(strings, slot, |strings|));
    assert g.heap[a] == PartlyFilled(strings, 0);
    FillRun(g, strings, slot, a, |strings|);
    assert PartlyFilled(strings, |strings|) == StringArray(strings);
    assert g.heap[a := StringArray(strings)] == f.heap + [StringArray(strings)];
  }

  /**
   * From 128 to 255 strings, `bipush` wraps the count to `count - 256`, a
   * negative value, and the generated code throws `NegativeArraySizeException`
   * before storing anything.
   */
  lemma ArrayOverflow(f: Frame, strings: seq<string>, slot: nat)
    requires 128 <= |strings| < 256 && !f.returned
    ensures Run(f, ArrayVisits(strings, slot)) == Err(NegativeArraySize(|strings| - 256))
  {
    SignedByteWraps(|strings|);
    NegativeCountRun(f, strings, slot);
  }

  /** Whenever `bipush` turns the count negative, `anewarray` throws before anything is stored. */
  lemma NegativeCountRun(f: Frame, strings: seq<string>, slot: nat)
    requires SignedByte(|strings|) < 0 && !f.returned
    ensures Run(f, ArrayVisits(strings, slot)) == Err(NegativeArraySize(SignedByte(|strings|)))
  {
    var vs := ArrayVisits(strings, slot);
    var f1 := f.(stack := f.stack + [IntV(SignedByte(|strings|))]);
    assert Step(f, vs[0].insn) == Ok(f1);
    assert Step(f1, vs[1].insn) == Err(NegativeArraySize(SignedByte(|strings|)));
  }

  /** The first `n` element stores only read the first `c` strings. */
  lemma {:induction false} FillVisitsPrefix(strings: seq<string>, slot: nat, c: nat, n: nat)
    requires n <= c <= |strings|
    ensures FillVisits(strings, slot, n) == FillVisits(strings[..c], slot, n)
  {
    if n > 0 {
      FillVisitsPrefix(strings, slot, c, n - 1);
      assert strings[..c][n - 1] == strings[n - 1];
    }
  }

  /** The stores for indices below `n` are a prefix of the stores for indices below `m >= n`. */
  lemma {:induction false} FillVisitsExtend(strings: seq<string>, slot: nat, n: nat, m: nat)
    requires n <= m <= |strings|
    ensures FillVisits(strings, slot, m)[..4 * n] == FillVisits(strings, slot, n)
  {
    if n < m {
      FillVisitsExtend(strings, slot, n, m - 1);
      var prefix := FillVisits(strings, slot, m - 1);
      assert (prefix + ElementVisits(strings, slot, m - 1))[..4 * n] == prefix[..4 * n];
    }
  }

  /** Once a prefix of the visits throws, the whole sequence throws the same exception. */
  lemma RunErrPrefix(f: Frame, a: seq<Visit>, b: seq<Visit>, e: JvmError)
    requires Run(f, a) == Err(e)
    ensures Run(f, a + b) == Err(e)
  {
    RunAppend(f, a, b);
  }

  /** `aastore` at an index past the end of the array throws `ArrayIndexOutOfBoundsException`. */
  lemma StoreOutOfRange(f: Frame, a: nat, i: nat, v: Value)
    requires !f.returned && a < |f.heap| && |f.heap[a]| <= i
    ensures Step(f.(stack := f.stack + [RefV(a), IntV(i), v]), ZeroInsn(AASTORE)) == Err(ArrayIndexOutOfBounds(i))
  {
    var g := f.(stack := f.stack + [RefV(a), IntV(i), v]);
    var n := |g.stack|;
    assert g.stack[n - 3] == RefV(a) && g.stack[n - 2] == IntV(i);
  }

  /** The first three instructions of an element store push the array reference, the index and the string. */
  lemma ElementPushes(f: Frame, strings: seq<string>, slot: nat, a: nat, i: nat)
    requires i < |strings| && i <= 127
    requires !f.returned && slot in f.locals && f.locals[slot] == RefV(a)
    ensures Run(f, ElementVisits(strings, slot, i)) ==
      Run(f.(stack := f.stack + [RefV(a), IntV(i), StrV(strings[i])]), [Instruction(ZeroInsn(AASTORE))])
  {
    var f1 := f.(stack := f.stack + [RefV(a)]);
    var f2 := f1.(stack := f1.stack + [IntV(i)]);
    var f3 := f2.(stack := f2.stack + [StrV(strings[i])]);
    var vs := ElementVisits(strings, slot, i);
    assert f3.stack == f.stack + [RefV(a), IntV(i), StrV(strings[i])];
    assert vs[3..] == [Instruction(ZeroInsn(AASTORE))];
    assert Step(f2, vs[2].insn) == Ok(f3);
    RunStep(f2, f3, vs[2], vs[3..]);
    assert vs[2..] == [vs[2]] + vs[3..];
    SignedByteSmall(i);
    assert Step(f1, vs[1].insn) == Ok(f2);
    RunStep(f1, f2, vs[1], vs[2..]);
    assert vs[1..] == [vs[1]] + vs[2..];
    assert Step(f, vs[0].insn) == Ok(f1);
    RunStep(f, f1, vs[0], vs[1..]);
    assert vs == [vs[0]] + vs[1..];
  }

  /** Storing at index `i` of an array with at most `i` elements throws `ArrayIndexOutOfBoundsException`. */
  lemma ElementOutOfRange(f: Frame, strings: seq<string>, slot: nat, a: nat, i: nat)
    requires i < |strings| && i <= 127
    requires !f.returned && slot in f.locals && f.locals[slot] == RefV(a) && a < |f.heap| && |f.heap[a]| <= i
    ensures Run(f, ElementVisits(strings, slot, i)) == Err(ArrayIndexOutOfBounds(i))
  {
    var store := Instruction(ZeroInsn(AASTORE));
    ElementPushes(f, strings, slot, a, i);
    StoreOutOfRange(f, a, i, StrV(strings[i]));
    RunStepErr(f.(stack := f.stack + [RefV(a), IntV(i), StrV(strings[i])]), store, [], ArrayIndexOutOfBounds(i));
    assert [store] + [] == [store];
  }

  /** Into an array of `c` nulls, the stores for indices up to `c` fill it and then throw at index `c`. */
  lemma FillPastEnd(g: Frame, strings: seq<string>, slot: nat, a: nat, c: nat)
    requires c < |strings| && c <= 127
    requires !g.returned && slot in g.locals && g.locals[slot] == RefV(a) && a < |g.heap|
    requires g.heap[a] == seq(c, _ => NullV)
    ensures Run(g, FillVisits(strings, slot, c + 1)) == Err(ArrayIndexOutOfBounds(c))
  {
    FillVisitsPrefix(strings, slot, c, c);
    assert g.heap[a] == PartlyFilled(strings[..c], 0);
    FillRun(g, strings[..c], slot, a, c);
    var h := g.(heap := g.heap[a := PartlyFilled(strings[..c], c)]);
    assert |h.heap[a]| == c;
    ElementOutOfRange(h, strings, slot, a, c);
    RunAppend(g, FillVisits(strings, slot, c), ElementVisits(strings, slot, c));
  }

  /**
   * From 256 strings on, `bipush` can wrap the count to a small non-negative
   * size `c`; the array then has `c` elements, the first `c` strings are
   * stored, and the store at index `c` throws `ArrayIndexOutOfBoundsException`.
   */
  lemma IndexOverflow(f: Frame, strings: seq<string>, slot: nat)
    requires 128 <= |strings| && 0 <= SignedByte(|strings|) && !f.returned
    ensures Run(f, ArrayVisits(strings, slot)) == Err(ArrayIndexOutOfBounds(SignedByte(|strings|)))
  {
    var c := SignedByte(|strings|);
    var g := f.(heap := f.heap + [seq(c, _ => NullV)], locals := f.locals[slot := RefV(|f.heap|)]);
    HeaderRun(f, |strings|, slot);
    var full := FillVisits(strings, slot, |strings|);
    RunAppend(f, HeaderVisits(|strings|, slot), full);
    assert Run(f, ArrayVisits(strings, slot)) == Run(g, full);
    var k := 4 * (c + 1);
    assert k <= |full|;
    FillVisitsExtend(strings, slot, c + 1, |strings|);
    FillPastEnd(g, strings, slot, |f.heap|, c);
    assert Run(g, full[..k]) == Err(ArrayIndexOutOfBounds(c));
    RunErrPrefix(g, full[..k], full[k..], ArrayIndexOutOfBounds(c));
    assert full[..k] + full[k..] == full;
  }

  /** The generated array code runs without an exception exactly when there are at most 127 strings. */
  lemma ArraySucceedsIff(f: Frame, strings: seq<string>, slot: nat)
    requires !f.returned
    ensures Run(f, ArrayVisits(strings, slot)).Ok? <==> |strings| <= 127
  {
    if |strings| <= 127 {
      ArrayRun(f, strings, slot);
    } else if SignedByte(|strings|) < 0 {
      NegativeCountRun(f, strings, slot);
    } else {
      IndexOverflow(f, strings, slot);
    }
  }

  /** The last two instructions: the call, with the whole stack as its arguments, and the return. */
  lemma InvokeRun(f: Frame)
    requires !f.returned && |f.stack| == 3
    ensures Run(f, CallVisits()[3..]) == Ok(f.(stack := [], calls := f.calls + [Call(HOOK, "standardMain", f.stack)], returned := true))
  {
    var vs := CallVisits();
    var f4 := f.(stack := [], calls := f.calls + [Call(HOOK, "standardMain", f.stack)]);
    var f5 := f4.(returned := true);
    assert f.stack[..0] == [] && f.stack[0..] == f.stack;
    assert Step(f, vs[3].insn) == Ok(f4);
    assert Step(f4, vs[4].insn) == Ok(f5);
    RunStep(f4, f5, vs[4], []);
    assert vs[4..] == [vs[4]] + [];
    RunStep(f, f4, vs[3], vs[4..]);
    assert vs[3..] == [vs[3]] + vs[4..];
  }

  /** `aload slot` pushes the local and the run goes on from there. */
  lemma LoadRun(f: Frame, slot: nat, rest: seq<Visit>)
    requires !f.returned && slot in f.locals
    ensures Run(f, [Instruction(VarInsn(ALOAD, slot))] + rest) == Run(f.(stack := f.stack + [f.locals[slot]]), rest)
  {
    RunStep(f, f.(stack := f.stack + [f.locals[slot]]), Instruction(VarInsn(ALOAD, slot)), rest);
  }

  /** The call to `Hook.standardMain` ends the frame with the three locals as its arguments. */
  lemma CallRun(f: Frame)
    requires !f.returned && f.stack == [] && 1 in f.locals && 2 in f.locals && 3 in f.locals
    ensures Run(f, CallVisits()) ==
      Ok(f.(calls := f.calls + [Call(HOOK, "standardMain", [f.locals[1], f.locals[2], f.locals[3]])], returned := true))
  {
    var f1 := f.(stack := [f.locals[1]]);
    var f2 := f.(stack := [f.locals[1], f.locals[2]]);
    var f3 := f.(stack := [f.locals[1], f.locals[2], f.locals[3]]);
    var invoke := CallVisits()[3..];
    var load2 := Instruction(VarInsn(ALOAD, 2));
    var load3 := Instruction(VarInsn(ALOAD, 3));
    assert f.stack + [f.locals[1]] == f1.stack;
    assert f1.stack + [f.locals[2]] == f2.stack;
    assert f2.stack + [f.locals[3]] == f3.stack;
    InvokeRun(f3);
    LoadRun(f2, 3, invoke);
    LoadRun(f1, 2, [load3] + invoke);
    LoadRun(f, 1, [load2] + ([load3] + invoke));
    assert CallVisits() == [Instruction(VarInsn(ALOAD, 1))] + ([load2] + ([load3] + invoke));
  }

  /** Visits that are not instructions leave the frame alone. */
  lemma NonInstructionsRun(f: Frame, vs: seq<Visit>)
    requires forall k :: 0 <= k < |vs| ==> !vs[k].Instruction?
    ensures Run(f, vs) == Ok(f)
    decreases |vs|
  {
    if vs != [] {
      NonInstructionsRun(f, vs[1..]);
    }
  }

  /** The frame after the three arrays are in slots 1, 2 and 3. */
  function ArraysFrame(f: Frame, modules: seq<string>, resources: seq<string>, btv: seq<string>): Frame
  {
    var h := |f.heap|;
    f.(heap := f.heap + [StringArray(modules)] + [StringArray(resources)] + [StringArray(btv)],
       locals := f.locals[1 := RefV(h)][2 := RefV(h + 1)][3 := RefV(h + 2)])
  }

  /** The frame the bootstrap `main` ends in, started from frame `f`. */
  function BootstrapResult(f: Frame, modules: seq<string>, resources: seq<string>, btv: seq<string>): Frame
  {
    var h := |f.heap|;
    ArraysFrame(f, modules, resources, btv).(
       calls := f.calls + [Call(HOOK, "standardMain", [RefV(h), RefV(h + 1), RefV(h + 2)])],
       returned := true)
  }

  /** The three array sequences fill slots 1, 2 and 3 with fresh arrays of the three lists. */
  lemma ArraysRun(f: Frame, modules: seq<string>, resources: seq<string>, btv: seq<string>)
    requires |modules| <= 127 && |resources| <= 127 && |btv| <= 127
    requires !f.returned
    ensures Run(f, [Code] + ArrayVisits(modules, 1) + ArrayVisits(resources, 2) + ArrayVisits(btv, 3))
      == Ok(ArraysFrame(f, modules, resources, btv))
  {
    var h := |f.heap|;
    var p1 := [Code] + ArrayVisits(modules, 1);
    var p2 := p1 + ArrayVisits(resources, 2);
    var f1 := f.(heap := f.heap + [StringArray(modules)], locals := f.locals[1 := RefV(h)]);
    var f2 := f1.(heap := f1.heap + [StringArray(resources)], locals := f1.locals[2 := RefV(h + 1)]);
    NonInstructionsRun(f, [Code]);
    RunAppend(f, [Code], ArrayVisits(modules, 1));
    ArrayRun(f, modules, 1);
    assert Run(f, p1) == Ok(f1);
    assert |f1.heap| == h + 1;
    RunAppend(f, p1, ArrayVisits(resources, 2));
    ArrayRun(f1, resources, 2);
    assert Run(f, p2) == Ok(f2);
    assert |f2.heap| == h + 2;
    var f3 := f2.(heap := f2.heap + [StringArray(btv)], locals := f2.locals[3 := RefV(h + 2)]);
    RunAppend(f, p2, ArrayVisits(btv, 3));
    ArrayRun(f2, btv, 3);
    assert Run(f2, ArrayVisits(btv, 3)) == Ok(f3);
    assert f3 == ArraysFrame(f, modules, resources, btv);
  }

  /**
   * With at most 127 entries in each list, the bootstrap `main` allocates the
   * three arrays, makes exactly one call, `Hook.standardMain(modules,
   * resources, btv)`, with those arrays in that order, and returns.
   */
  lemma BootstrapRun(f: Frame, modules: seq<string>, resources: seq<string>, btv: seq<string>)
    requires |modules| <= 127 && |resources| <= 127 && |btv| <= 127
    requires f.stack == [] && !f.returned
    ensures Run(f, BootstrapVisits(modules, resources, btv)) == Ok(BootstrapResult(f, modules, resources, btv))
    ensures var g := BootstrapResult(f, modules, resources, btv);
      g.returned && g.stack == [] &&
      g.calls[|f.calls|..] == [Call(HOOK, "standardMain", [RefV(|f.heap|), RefV(|f.heap| + 1), RefV(|f.heap| + 2)])] &&
      g.heap[|f.heap|] == StringArray(modules) && g.heap[|f.heap| + 1] == StringArray(resources) && g.heap[|f.heap| + 2] == StringArray(btv)
  {
    var p3 := [Code] + ArrayVisits(modules, 1) + ArrayVisits(resources, 2) + ArrayVisits(btv, 3);
    var g := BootstrapResult(f, modules, resources, btv);
    BodyRun(f, modules, resources, btv);
    RunAppend(f, p3 + CallVisits(), [Maxs(3, 3), End]);
    NonInstructionsRun(g, [Maxs(3, 3), End]);
  }

  /** Everything up to the return: the three arrays, then the call. */
  lemma BodyRun(f: Frame, modules: seq<string>, resources: seq<string>, btv: seq<string>)
    requires |modules| <= 127 && |resources| <= 127 && |btv| <= 127
    requires f.stack == [] && !f.returned
    ensures Run(f, [Code] + ArrayVisits(modules, 1) + ArrayVisits(resources, 2) + ArrayVisits(btv, 3) + CallVisits())
      == Ok(BootstrapResult(f, modules, resources, btv))
  {
    var p3 := [Code] + ArrayVisits(modules, 1) + ArrayVisits(resources, 2) + ArrayVisits(btv, 3);
    var f3 := ArraysFrame(f, modules, resources, btv);
    ArraysRun(f, modules, resources, btv);
    RunAppend(f, p3, CallVisits());
    CallRun(f3);
  }

  /** `findClassesExtending`'s filters: a non-anonymous subclass, and a direct one when `direct` is set. */
  predicate Extends(c: ClassInfo, superclass: string, direct: bool)
  {
    !c.isAnonymous && (!direct || c.superclass == superclass)
  }

  /** The names of the classes of `cs` that pass the filters, in order. */
  function ExtendingNames(cs: seq<ClassInfo>, superclass: string, direct: bool): (r: seq<string>)
    ensures |r| <= |cs|
  {
    if cs == [] then []
    else (if Extends(cs[0], superclass, direct) then [cs[0].name] else []) + ExtendingNames(cs[1..], superclass, direct)
  }

  lemma {:induction false} ExtendingNamesMembers(cs: seq<ClassInfo>, superclass: string, direct: bool, n: string)
    ensures n in ExtendingNames(cs, superclass, direct) <==> exists c :: c in cs && Extends(c, superclass, direct) && c.name == n
  {
    if cs != [] {
      ExtendingNamesMembers(cs[1..], superclass, direct, n);
      assert cs == [cs[0]] + cs[1..];
    }
  }

  /** The diagnostics of `ds` at `level`, in order. */
  function OfLevel(ds: seq<Diagnostic>, level: Level): seq<Diagnostic>
  {
    if ds == [] then [] else (if ds[0].level == level then [ds[0]] else []) + OfLevel(ds[1..], level)
  }

  lemma {:induction false} OfLevelAppend(a: seq<Diagnostic>, b: seq<Diagnostic>, level: Level)
    ensures OfLevel(a + b, level) == OfLevel(a, level) + OfLevel(b, level)
  {
    if a == [] {
      assert a + b == b;
    } else {
      assert (a + b)[0] == a[0] && (a + b)[1..] == a[1..] + b;
      OfLevelAppend(a[1..], b, level);
    }
  }

  /** A list all at one level keeps everything at that level and nothing at the other. */
  lemma {:induction false} OfLevelUniform(ds: seq<Diagnostic>, level: Level)
    requires forall k :: 0 <= k < |ds| ==> ds[k].level == level
    ensures OfLevel(ds, level) == ds
    ensures forall other :: other != level ==> OfLevel(ds, other) == []
  {
    if ds != [] {
      OfLevelUniform(ds[1..], level);
    }
  }

  /** Everything `lint` reports, in the order the five lints run. */
  function LintAll(scan: ScanResult, btv: seq<string>): seq<Diagnostic>
  {
    AFResourceLint.Lint(scan) + ResourceConstructorLint.Lint(scan) + BuildTimeVariableLint.Lint(btv)
      + FinalModuleLint.Lint(scan) + AnonymousResourceLint.Lint(scan)
  }

  /** What each of the five lints contributes to the errors and to the warnings. */
  lemma LintParts(scan: ScanResult, btv: seq<string>)
    ensures OfLevel(AFResourceLint.Lint(scan), Error) == [] && OfLevel(AFResourceLint.Lint(scan), Warning) == AFResourceLint.Lint(scan)
    ensures OfLevel(FinalModuleLint.Lint(scan), Error) == [] && OfLevel(FinalModuleLint.Lint(scan), Warning) == FinalModuleLint.Lint(scan)
    ensures OfLevel(AnonymousResourceLint.Lint(scan), Error) == [] && OfLevel(AnonymousResourceLint.Lint(scan), Warning) == AnonymousResourceLint.Lint(scan)
    ensures OfLevel(ResourceConstructorLint.Lint(scan), Error) == ResourceConstructorLint.Lint(scan) && OfLevel(ResourceConstructorLint.Lint(scan), Warning) == []
    ensures OfLevel(BuildTimeVariableLint.Lint(btv), Error) == BuildTimeVariableLint.Lint(btv) && OfLevel(BuildTimeVariableLint.Lint(btv), Warning) == []
  {
    OfLevelUniform(AFResourceLint.Lint(scan), Warning);
    OfLevelUniform(FinalModuleLint.Lint(scan), Warning);
    OfLevelUniform(AnonymousResourceLint.Lint(scan), Warning);
    OfLevelUniform(ResourceConstructorLint.Lint(scan), Error);
    OfLevelUniform(BuildTimeVariableLint.Lint(btv), Error);
  }

  /** The errors `lint` reports are exactly those of the constructor and the build-time-variable lints, in order. */
  lemma LintErrors(scan: ScanResult, btv: seq<string>)
    ensures OfLevel(LintAll(scan, btv), Error) == ResourceConstructorLint.Lint(scan) + BuildTimeVariableLint.Lint(btv)
  {
    LintParts(scan, btv);
    KeepMiddle(AFResourceLint.Lint(scan), ResourceConstructorLint.Lint(scan), BuildTimeVariableLint.Lint(btv), FinalModuleLint.Lint(scan), AnonymousResourceLint.Lint(scan), Error);
  }

  /** The warnings `lint` reports are exactly those of the other three lints, in order. */
  lemma LintWarnings(scan: ScanResult, btv: seq<string>)
    ensures OfLevel(LintAll(scan, btv), Warning) == AFResourceLint.Lint(scan) + FinalModuleLint.Lint(scan) + AnonymousResourceLint.Lint(scan)
  {
    LintParts(scan, btv);
    KeepOuter(AFResourceLint.Lint(scan), ResourceConstructorLint.Lint(scan), BuildTimeVariableLint.Lint(btv), FinalModuleLint.Lint(scan), AnonymousResourceLint.Lint(scan), Warning);
  }

  lemma OfLevelFive(a: seq<Diagnostic>, b: seq<Diagnostic>, c: seq<Diagnostic>, d: seq<Diagnostic>, e: seq<Diagnostic>, level: Level)
    ensures OfLevel(a + b + c + d + e, level) == OfLevel(a, level) + OfLevel(b, level) + OfLevel(c, level) + OfLevel(d, level) + OfLevel(e, level)
  {
    OfLevelAppend(a + b + c + d, e, level);
    OfLevelAppend(a + b + c, d, level);
    OfLevelAppend(a + b, c, level);
    OfLevelAppend(a, b, level);
  }

  /** The diagnostics at `level` of five lists of which only the second and third are at that level. */
  lemma KeepMiddle(a: seq<Diagnostic>, b: seq<Diagnostic>, c: seq<Diagnostic>, d: seq<Diagnostic>, e: seq<Diagnostic>, level: Level)
    requires OfLevel(a, level) == [] && OfLevel(b, level) == b && OfLevel(c, level) == c
    requires OfLevel(d, level) == [] && OfLevel(e, level) == []
    ensures OfLevel(a + b + c + d + e, level) == b + c
  {
    OfLevelFive(a, b, c, d, e, level);
    assert [] + b + c + [] + [] == b + c;
  }

  /** The diagnostics at `level` of five lists of which only the first, fourth and fifth are at that level. */
  lemma KeepOuter(a: seq<Diagnostic>, b: seq<Diagnostic>, c: seq<Diagnostic>, d: seq<Diagnostic>, e: seq<Diagnostic>, level: Level)
    requires OfLevel(a, level) == a && OfLevel(b, level) == [] && OfLevel(c, level) == []
    requires OfLevel(d, level) == d && OfLevel(e, level) == e
    ensures OfLevel(a + b + c + d + e, level) == a + d + e
  {
    OfLevelFive(a, b, c, d, e, level);
    assert a + [] + [] + d + e == a + d + e;
  }

  /** `FinalResourceLint` is not among the lints `lint` runs: none of its warnings is ever reported. */
  lemma LintExcludesFinalResource(scan: ScanResult, btv: seq<string>, c: ClassInfo)
    ensures FinalResourceLint.WarningFor(c) !in LintAll(scan, btv)
  {
    var w := FinalResourceLint.WarningFor(c);
    assert |w.message| != |AFResourceLint.MESSAGE|;
    assert w.message != FinalModuleLint.MESSAGE;
    assert w.message != AnonymousResourceLint.MESSAGE;
    assert w !in AFResourceLint.Lint(scan);
    assert w !in ResourceConstructorLint.Lint(scan);
    assert w !in BuildTimeVariableLint.Lint(btv);
    assert w !in FinalModuleLint.Lint(scan);
    assert w !in AnonymousResourceLint.Lint(scan);
  }

  /** `DjinnCompiler`: the scanned classpath of a project and its registered build-time variables. */
  class DjinnCompiler {
    /** The scan of every path: the primary one first, then the others. */
    const classpath: ScanResult
    const primary: string
    const paths: seq<string>
    var buildTimeVariables: seq<string>

    /** `of(primary, others...)`: the primary path, then the others, scanned together; no build-time variables yet. */
    constructor Of(primary: string, others: seq<string>, classpath: ScanResult)
      ensures this.paths == [primary] + others && this.primary == this.paths[0]
      ensures this.classpath == classpath && buildTimeVariables == []
    {
      this.paths := [primary] + others;
      this.primary := primary;
      this.classpath := classpath;
      buildTimeVariables := [];
    }

    /** `registerBTV`: keeps the variable, unchecked, after the earlier ones; `lint` checks it. */
    method RegisterBTV(btv: string)
      modifies this
      ensures buildTimeVariables == old(buildTimeVariables) + [btv]
    {
      buildTimeVariables := buildTimeVariables + [btv];
    }

    /**
     * `findClassesExtending`: the names of the scanned, non-anonymous classes
     * extending `superclass` (directly, when `direct` is set), in scan order.
     */
    function FindClassesExtending(superclass: string, direct: bool): (r: seq<string>)
      ensures r == ExtendingNames(Subclasses(classpath, superclass), superclass, direct)
      ensures forall n :: n in r <==> exists c :: c in classpath.classes && superclass in c.ancestors && Extends(c, superclass, direct) && c.name == n
    {
      var subs := Subclasses(classpath, superclass);
      assert forall n :: n in ExtendingNames(subs, superclass, direct) <==> exists c :: c in classpath.classes && superclass in c.ancestors && Extends(c, superclass, direct) && c.name == n by {
        forall n
          ensures n in ExtendingNames(subs, superclass, direct) <==> exists c :: c in classpath.classes && superclass in c.ancestors && Extends(c, superclass, direct) && c.name == n
        {
          ExtendingNamesMembers(subs, superclass, direct, n);
        }
      }
      ExtendingNames(subs, superclass, direct)
    }

    /**
     * `generateBootstrapper`: the body of the bootstrap `main`, holding the
     * direct `DjinnModule` subclasses, all `Resource` subclasses and the
     * build-time variables, in that order.
     */
    method GenerateBootstrapper() returns (main: MethodVisitor)
      ensures fresh(main)
      ensures main.visits == BootstrapVisits(FindClassesExtending(DJINN_MODULE, true), FindClassesExtending(RESOURCE, false), buildTimeVariables)
    {
      var modules := FindClassesExtending(DJINN_MODULE, true);
      var resources := FindClassesExtending(RESOURCE, false);
      main := new MethodVisitor();
      GenerateMain(main, modules, resources, buildTimeVariables);
    }

    /** The visitor calls of `main` after `visitMethod`: the three arrays, the call, and the closing calls. */
    static method GenerateMain(main: MethodVisitor, modules: seq<string>, resources: seq<string>, btv: seq<string>)
      requires main.visits == []
      modifies main
      ensures main.visits == BootstrapVisits(modules, resources, btv)
    {
      main.Visit(Code);
      GenerateArray(main, modules, 1);
      GenerateArray(main, resources, 2);
      GenerateArray(main, btv, 3);
      ghost var body := [Code] + ArrayVisits(modules, 1) + ArrayVisits(resources, 2) + ArrayVisits(btv, 3);
      assert main.visits == body;
      GenerateCall(main);
      main.Visit(Maxs(3, 3));
      main.Visit(End);
      assert main.visits == body + CallVisits() + [Maxs(3, 3)] + [End];
    }

    /** The tail of `generateBootstrapper`: the call to `Hook.standardMain` and the return. */
    static method GenerateCall(main: MethodVisitor)
      modifies main
      ensures main.visits == old(main.visits) + CallVisits()
    {
      main.Visit(Instruction(VarInsn(ALOAD, 1)));
      main.Visit(Instruction(VarInsn(ALOAD, 2)));
      main.Visit(Instruction(VarInsn(ALOAD, 3)));
      main.Visit(Instruction(MethodInsn(INVOKESTATIC, HOOK, "standardMain", STANDARD_MAIN, false)));
      main.Visit(Instruction(ZeroInsn(RETURN)));
    }

    /** `lint`: runs the five lints into one fresh emitter and returns what they emitted. */
    method Lint() returns (r: seq<Diagnostic>)
      ensures r == LintAll(classpath, buildTimeVariables)
    {
      var af, rc, bt, fm, an := AFResourceLint.Lint(classpath), ResourceConstructorLint.Lint(classpath),
        BuildTimeVariableLint.Lint(buildTimeVariables), FinalModuleLint.Lint(classpath), AnonymousResourceLint.Lint(classpath);
      var dg := new DCDiagnosticEmitter();
      dg.EmitAll(af);
      ResourceConstructorLint.RunLint(classpath, dg);
      BuildTimeVariableLint.RunLint(buildTimeVariables, dg);
      dg.EmitAll(fm);
      dg.EmitAll(an);
      Seqs.AppendFromEmpty(af, rc, bt, fm, an);
      r := dg.diagnostics;
    }
  }
}
