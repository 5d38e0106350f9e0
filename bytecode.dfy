/**
 * The JVM instructions the bootstrap generator emits, the ASM method-visitor
 * calls that carry them, and a small interpreter of a single JVM frame that
 * gives those instructions their meaning (section 6.5 of the Java Virtual
 * Machine Specification).
 */
module Bytecode {
  import opened Wrappers

  // Opcode values as the JVM specification (and ASM's `Opcodes`) define them.
  const ALOAD: int := 25
  const ASTORE: int := 58
  const AASTORE: int := 83
  const BIPUSH: int := 16
  const RETURN: int := 177
  const INVOKESTATIC: int := 184
  const ANEWARRAY: int := 189

  /** A method descriptor: its parameter type descriptors and its return type descriptor. */
  datatype Descriptor = Descriptor(params: seq<string>, returnType: string)

  /** The descriptor as text, `(P1P2...)R`. */
  function DescriptorText(d: Descriptor): string
  {
    "(" + Concat(d.params) + ")" + d.returnType
  }

  function Concat(parts: seq<string>): string
  {
    if parts == [] then "" else parts[0] + Concat(parts[1..])
  }

  /** One instruction, shaped like the ASM visitor call that emits it. */
  datatype Insn =
    | IntInsn(opcode: int, operand: int)
    | TypeInsn(opcode: int, typ: string)
    | VarInsn(opcode: int, slot: nat)
    | LdcInsn(constant: string)
    | ZeroInsn(opcode: int)
    | MethodInsn(opcode: int, owner: string, name: string, descriptor: Descriptor, isInterface: bool)

  /** One call on a `MethodVisitor`. */
  datatype Visit = Code | Instruction(insn: Insn) | Maxs(maxStack: int, maxLocals: int) | End

  /** A `MethodVisitor` that records the calls made on it, in order. */
  class MethodVisitor {
    var visits: seq<Visit>

    constructor ()
      ensures visits == []
    {
      visits := [];
    }

    method Visit(v: Visit)
      modifies this
      ensures visits == old(visits) + [v]
    {
      visits := visits + [v];
    }
  }

  // A single frame of the JVM, enough to run the generated `main`.

  /** An operand-stack or local-variable value: an int, a reference to an array, a string constant, or null. */
  datatype Value = IntV(i: int) | RefV(addr: nat) | StrV(s: string) | NullV

  /** A static call the frame made. */
  datatype Call = Call(owner: string, name: string, args: seq<Value>)

  /** Operand stack (top last), local variables, the arrays allocated so far, the calls made, and whether it returned. */
  datatype Frame = Frame(stack: seq<Value>, locals: map<nat, Value>, heap: seq<seq<Value>>, calls: seq<Call>, returned: bool)

  datatype JvmError =
    | StackUnderflow
    | UnsetLocal(slot: nat)
    | NegativeArraySize(count: int)
    | ArrayIndexOutOfBounds(index: int)
    | NotAnArray
    | AfterReturn
    | Unsupported(opcode: int)

  /** The value `bipush` pushes: ASM writes the low 8 bits of the operand and the JVM sign-extends that byte. */
  function SignedByte(n: int): (r: int)
    ensures -128 <= r <= 127
    ensures (r - n) % 256 == 0
  {
    var b := n % 256;
    if b >= 128 then b - 256 else b
  }

  /** Executes one instruction. */
  function Step(f: Frame, insn: Insn): (r: Result<Frame, JvmError>)
    ensures r.Ok? ==> |r.value.heap| >= |f.heap| && |r.value.calls| >= |f.calls|
  {
    if f.returned then Err(AfterReturn)
    else match insn
      case IntInsn(op, n) =>
        if op == BIPUSH then Ok(f.(stack := f.stack + [IntV(SignedByte(n))])) else Err(Unsupported(op))
      case TypeInsn(op, _) =>
        if op != ANEWARRAY then Err(Unsupported(op))
        else if |f.stack| < 1 then Err(StackUnderflow)
        else (match f.stack[|f.stack| - 1]
          case IntV(count) =>
            if count < 0 then Err(NegativeArraySize(count))
            else Ok(f.(stack := f.stack[..|f.stack| - 1] + [RefV(|f.heap|)], heap := f.heap + [seq(count, _ => NullV)]))
          case _ => Err(NotAnArray))
      case VarInsn(op, slot) =>
        if op == ALOAD then
          if slot in f.locals then Ok(f.(stack := f.stack + [f.locals[slot]])) else Err(UnsetLocal(slot))
        else if op == ASTORE then
          if |f.stack| < 1 then Err(StackUnderflow)
          else Ok(f.(stack := f.stack[..|f.stack| - 1], locals := f.locals[slot := f.stack[|f.stack| - 1]]))
        else Err(Unsupported(op))
      case LdcInsn(s) => Ok(f.(stack := f.stack + [StrV(s)]))
      case ZeroInsn(op) =>
        if op == RETURN then Ok(f.(returned := true))
        else if op == AASTORE then
          if |f.stack| < 3 then Err(StackUnderflow)
          else
            var n := |f.stack|;
            (match (f.stack[n - 3], f.stack[n - 2])
              case (RefV(a), IntV(index)) =>
                if a >= |f.heap| then Err(NotAnArray)
                else if index < 0 || index >= |f.heap[a]| then Err(ArrayIndexOutOfBounds(index))
                else Ok(f.(stack := f.stack[..n - 3], heap := f.heap[a := f.heap[a][index := f.stack[n - 1]]]))
              case _ => Err(NotAnArray))
        else Err(Unsupported(op))
      case MethodInsn(op, owner, name, d, _) =>
        if op != INVOKESTATIC then Err(Unsupported(op))
        else if |f.stack| < |d.params| then Err(StackUnderflow)
        else
          var k := |f.stack| - |d.params|;
          Ok(f.(stack := f.stack[..k], calls := f.calls + [Call(owner, name, f.stack[k..])]))
  }

  /** Runs the recorded visitor calls in order; only instructions act on the frame. */
  function Run(f: Frame, visits: seq<Visit>): Result<Frame, JvmError>
    decreases |visits|
  {
    if visits == [] then Ok(f)
    else match visits[0]
      case Instruction(insn) =>
        (match Step(f, insn)
          case Ok(g) => Run(g, visits[1..])
          case Err(e) => Err(e))
      case _ => Run(f, visits[1..])
  }

  /** Running two call sequences one after the other is running their concatenation. */
  lemma {:induction false} RunAppend(f: Frame, a: seq<Visit>, b: seq<Visit>)
    ensures Run(f, a + b) == match Run(f, a) case Ok(g) => Run(g, b) case Err(e) => Err(e)
    decreases |a|
  {
    if a != [] {
      assert (a + b)[1..] == a[1..] + b;
      match a[0]
      case Instruction(insn) =>
        if Step(f, insn).Ok? {
          RunAppend(Step(f, insn).value, a[1..], b);
        }
      case _ =>
        RunAppend(f, a[1..], b);
    } else {
      assert a + b == b;
    }
  }

  /** `bipush` pushes small counts unchanged and wraps larger ones to negative values. */
  lemma SignedByteExamples()
    ensures forall n :: 0 <= n <= 127 ==> SignedByte(n) == n
    ensures SignedByte(128) == -128 && SignedByte(255) == -1 && SignedByte(256) == 0
  {
  }

  /** A count from 0 to 127 comes out of `bipush` unchanged. */
  lemma SignedByteSmall(n: int)
    requires 0 <= n <= 127
    ensures SignedByte(n) == n
  {
  }

  /** Counts from 128 to 255 come out of `bipush` as `count - 256`, a negative value. */
  lemma SignedByteWraps(n: int)
    requires 128 <= n < 256
    ensures SignedByte(n) == n - 256 < 0
  {
  }
}
