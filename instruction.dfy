/**
  The decompiler's instruction tree, as the three passes modelled here see it:
  one closed datatype covering the opcodes those passes name, grouped where the
  passes treat a group of opcodes alike, plus `Other` for any opcode none of them
  names. Every node carries the source line number the decompiler attached to it.
*/
module Instructions {
  import opened Wrappers

  /** ICONST, BIPUSH and SIPUSH: all three are IConst nodes with a returned signature. */
  datatype PushOp = IconstPush | BipushPush | SipushPush

  /** Opcodes without operand instructions (ACONST_NULL, LCONST, FCONST, DCONST,
      GETSTATIC, OUTERTHIS, GOTO, IINC, JSR, LDC, LDC2_W, NEW, NOP, RET, RETURN,
      EXCEPTIONLOAD, RETURNADDRESSLOAD, DUPLOAD). */
  datatype LeafOp =
    | AConstNull | LConst | FConst | DConst | GetStatic | OuterThis | Goto | IInc
    | Jsr | Ldc | Ldc2W | New | Nop | Ret | Return | ExceptionLoad | ReturnAddressLoad
    | DupLoad

  /** Opcodes with exactly one operand instruction. */
  datatype UnaryOp =
    | ArrayLength      // arrayref
    | AThrow           // value
    | UnaryOperator    // UNARYOP: value
    | CheckCast        // objectref
    | DupStore         // objectref
    | Convert          // CONVERT: value
    | ImplicitConvert  // IMPLICITCONVERT: value
    | If               // IF: value
    | IfXNull          // IFXNULL: value
    | InstanceOf       // objectref
    | LookupSwitch     // key
    | MonitorEnter     // objectref
    | MonitorExit      // objectref
    | NewArray         // dimension
    | ANewArray        // dimension
    | Pop              // objectref
    | PutStatic        // valueref
    | XReturn          // valueref
    | TableSwitch      // key
    | TernaryOpStore   // objectref
    | GetField         // objectref

  /** Opcodes with two operand instructions, `left` evaluated first. */
  datatype BinaryOp =
    | BinaryOperator   // BINARYOP: value1, value2
    | Assignment       // ASSIGNMENT: value1, value2
    | IfCmp            // IFCMP: value1, value2
    | PutField         // objectref, valueref
    | ArrayLoad        // ARRAYLOAD: arrayref, indexref

  datatype InvokeKind = InvokeVirtual | InvokeInterface | InvokeSpecial

  /** COMPLEXIF (its branch list) and MULTIANEWARRAY (its dimensions). */
  datatype ListOp = ComplexIf | MultiANewArray

  datatype TestListKind = While | DoWhile | IfSimple

  /** Fast instructions that wrap at most one instruction. */
  datatype WrapKind =
    | IfContinue | IfBreak | IfLabeledBreak | GotoContinue | GotoBreak | GotoLabeledBreak
    | Label | Declare

  datatype SwitchKind = PlainSwitch | EnumSwitch | StringSwitch

  /** A child that may be null is an `Option<Instruction>`; a list that may be
      null is a `MaybeList`. */
  datatype Instruction =
    | Leaf(line: int, leaf: LeafOp)
    | IConst(line: int, push: PushOp, value: int, signature: string)
    | Load(line: int, offset: int, slot: int)                          // LOAD, ALOAD, ILOAD
    | Store(line: int, offset: int, slot: int, valueref: Instruction)  // STORE, ASTORE, ISTORE
    | Unary(line: int, unary: UnaryOp, operand: Instruction)
    | Binary(line: int, binary: BinaryOp, left: Instruction, right: Instruction)
    | ArrayStore(line: int, arrayref: Instruction, indexref: Instruction, valueref: Instruction)  // AASTORE, ARRAYSTORE
    | Ternary(line: int, test: Instruction, value1: Instruction, value2: Instruction)          // TERNARYOP
    | Inc(line: int, post: bool, count: int, incremented: Instruction)                        // PREINC, POSTINC
    | Assert(line: int, test: Instruction, msg: Option<Instruction>)
    | Invoke(line: int, kind: InvokeKind, methodIndex: int, objectref: Instruction, args: seq<Instruction>)
    | InvokeStatic(line: int, isNew: bool, methodIndex: int, args: seq<Instruction>)           // INVOKESTATIC, INVOKENEW
    | Operands(line: int, listOp: ListOp, operands: seq<Instruction>)
    | InitArray(line: int, newArray: Instruction, initValues: MaybeList)        // INITARRAY, NEWANDINITARRAY
    | For(line: int, init: Option<Instruction>, forTest: Option<Instruction>, inc: Option<Instruction>,
          body: seq<Instruction>)
    | TestList(line: int, testKind: TestListKind, condition: Option<Instruction>, body: seq<Instruction>)
    | InfiniteLoop(line: int, loopBody: MaybeList)
    | ForEach(line: int, variable: Instruction, values: Instruction, body: seq<Instruction>)
    | IfElse(line: int, ifTest: Instruction, body: seq<Instruction>, elseBody: seq<Instruction>)
    | Wrapped(line: int, wrapKind: WrapKind, inner: Option<Instruction>)
    | Switch(line: int, switchKind: SwitchKind, key: Instruction, cases: seq<MaybeList>)
    | Try(line: int, body: seq<Instruction>, catches: seq<CatchClause>, finallyBody: MaybeList)
    | Synchronized(line: int, monitor: Instruction, body: seq<Instruction>)
    | Other(line: int, opcode: int)

  datatype MaybeList = NullList | ListOf(items: seq<Instruction>)

  /** A catch clause of a try statement: its handler's instructions. */
  datatype CatchClause = CatchClause(handler: seq<Instruction>)

  /** An optional child as a list of zero or one children. */
  function OptionalChild(x: Option<Instruction>): (r: seq<Instruction>)
    ensures forall c :: c in r <==> x == Some(c)
  {
    if x.Some? then [x.value] else []
  }

  /** An optional list: a null list has no elements. */
  function OptionalList(x: MaybeList): (r: seq<Instruction>)
    ensures forall c :: c in r <==> x.ListOf? && c in x.items
  {
    if x.ListOf? then x.items else []
  }

  /** The instructions of a list of lists, in order. */
  function Concat(lists: seq<seq<Instruction>>): (r: seq<Instruction>)
    ensures forall c :: c in r <==> exists k :: 0 <= k < |lists| && c in lists[k]
  {
    if |lists| == 0 then [] else Concat(lists[..|lists| - 1]) + lists[|lists| - 1]
  }

  /** Every operand, condition and nested statement of a node, whether or not a
      given pass looks at it. */
  function Children(i: Instruction): (r: seq<Instruction>)
    ensures forall c :: c in r ==> c < i
  {
    match i
    case Leaf(_, _) => []
    case IConst(_, _, _, _) => []
    case Load(_, _, _) => []
    case Store(_, _, _, v) => [v]
    case Unary(_, _, x) => [x]
    case Binary(_, _, a, b) => [a, b]
    case ArrayStore(_, a, x, v) => [a, x, v]
    case Ternary(_, t, a, b) => [t, a, b]
    case Inc(_, _, _, v) => [v]
    case Assert(_, t, m) => [t] + OptionalChild(m)
    case Invoke(_, _, _, o, args) => [o] + args
    case InvokeStatic(_, _, _, args) => args
    case Operands(_, _, operands) => operands
    case InitArray(_, n, vs) => [n] + OptionalList(vs)
    case For(_, a, t, b, body) => OptionalChild(a) + OptionalChild(t) + OptionalChild(b) + body
    case TestList(_, _, t, body) => OptionalChild(t) + body
    case InfiniteLoop(_, body) => OptionalList(body)
    case ForEach(_, v, vs, body) => [v, vs] + body
    case IfElse(_, t, a, b) => [t] + a + b
    case Wrapped(_, _, x) => OptionalChild(x)
    case Switch(_, _, k, cases) =>
      [k] + Concat(seq(|cases|, j requires 0 <= j < |cases| => OptionalList(cases[j])))
    case Try(_, body, catches, fin) =>
      body + Concat(seq(|catches|, j requires 0 <= j < |catches| => catches[j].handler)) + OptionalList(fin)
    case Synchronized(_, m, body) => [m] + body
    case Other(_, _) => []
  }

  /** The line numbers of all nodes of a tree. */
  ghost function Lines(i: Instruction): set<int>
    decreases i
  {
    {i.line} + set c, l | c in Children(i) && l in Lines(c) :: l
  }
}
