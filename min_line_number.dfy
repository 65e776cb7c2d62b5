/**
  The layouter's line-number probe: it follows an expression's first-evaluated
  operand down to a node that reports its own line. Despite the name, it does not
  take a minimum over the tree.
*/
module MinLineNumber {
  import opened Instructions

  /** The line the probe reports for `i`: ARRAYLOAD, ARRAYSTORE, ASSIGNMENT,
      BINARYOP, INSTANCEOF, the non-static invokes, POP and PUTFIELD defer to
      their first operand; TERNARYOP to its test; PREINC with a count of one
      reports itself and POSTINC with a count of one defers to its operand (the
      other way round for other counts); every other node reports its own line. */
  function MinLine(i: Instruction): (r: int)
    ensures r in Lines(i)
    decreases i, 1
  {
    match i
    case Binary(_, op, left, _) =>
      if op == ArrayLoad || op == Assignment || op == BinaryOperator || op == PutField
      then ThroughChild(i, left)
      else i.line
    case ArrayStore(_, arrayref, _, _) => ThroughChild(i, arrayref)
    case Inc(_, post, count, value) =>
      if (count == 1 || count == -1) == post then ThroughChild(i, value) else i.line
    case Unary(_, op, operand) =>
      if op == InstanceOf || op == Pop then ThroughChild(i, operand) else i.line
    case Invoke(_, _, _, objectref, _) => ThroughChild(i, objectref)
    case Ternary(_, test, _, _) => ThroughChild(i, test)
    case _ => i.line
  }

  /** The probe of child `c` of `i`, which is a line of `i`. */
  function ThroughChild(i: Instruction, c: Instruction): (r: int)
    requires c in Children(i)
    ensures r in Lines(i)
    decreases i, 0
  {
    MinLine(c)
  }

  /** The probe is not a minimum: on `a[j]` with the array on line 7 and the
      index on line 3 it reports 7, although line 3 belongs to the tree. */
  lemma NotAMinimum()
    ensures var i := Binary(7, ArrayLoad, Load(7, 0, 1), Load(3, 0, 2));
            MinLine(i) == 7 && 3 in Lines(i)
  {
    var i := Binary(7, ArrayLoad, Load(7, 0, 1), Load(3, 0, 2));
    assert Load(3, 0, 2) in Children(i);
    assert 3 in Lines(Load(3, 0, 2));
  }

  /** PREINC and POSTINC make opposite choices for every count: exactly one of
      the two reports its own line and the other its operand's. */
  lemma IncrementsChooseOppositely(line: int, count: int, value: Instruction)
    ensures var pre := MinLine(Inc(line, false, count, value));
            var post := MinLine(Inc(line, true, count, value));
            if count == 1 || count == -1 then pre == line && post == MinLine(value)
            else pre == MinLine(value) && post == line
  {
  }

  /** Only the first-operand spine matters: the second operand of a binary
      operation never affects the result. */
  lemma SecondOperandIgnored(line: int, op: BinaryOp, left: Instruction, right1: Instruction, right2: Instruction)
    ensures MinLine(Binary(line, op, left, right1)) == MinLine(Binary(line, op, left, right2))
  {
  }

  // -- The probe, opcode group by opcode group ---------------------------------- //

  /** ARRAYLOAD, ASSIGNMENT, BINARYOP and PUTFIELD follow their first operand;
      IFCMP reports its own line. */
  lemma BinaryFollowsFirstOperand(line: int, op: BinaryOp, left: Instruction, right: Instruction)
    ensures MinLine(Binary(line, op, left, right)) ==
            if op == IfCmp then line else MinLine(left)
  {
  }

  /** AASTORE and ARRAYSTORE follow their array reference, whatever the index and
      the value. */
  lemma ArrayStoreFollowsArrayref(line: int, arrayref: Instruction, indexref: Instruction, valueref: Instruction)
    ensures MinLine(ArrayStore(line, arrayref, indexref, valueref)) == MinLine(arrayref)
  {
  }

  /** INSTANCEOF and POP follow their object reference; every other one-operand
      node reports its own line. */
  lemma UnaryFollowsOnlyInstanceOfAndPop(line: int, op: UnaryOp, operand: Instruction)
    ensures MinLine(Unary(line, op, operand)) ==
            if op == InstanceOf || op == Pop then MinLine(operand) else line
  {
  }

  /** INVOKEINTERFACE, INVOKEVIRTUAL and INVOKESPECIAL follow their object
      reference, whatever the arguments. */
  lemma InvokeFollowsObjectref(line: int, kind: InvokeKind, methodIndex: int, objectref: Instruction,
                               args: seq<Instruction>)
    ensures MinLine(Invoke(line, kind, methodIndex, objectref, args)) == MinLine(objectref)
  {
  }

  /** TERNARYOP follows its test; its two values never matter. */
  lemma TernaryFollowsTest(line: int, test: Instruction, value1: Instruction, value2: Instruction)
    ensures MinLine(Ternary(line, test, value1, value2)) == MinLine(test)
  {
  }

  /** Every node of an opcode the probe does not name reports its own line, even
      one with operands, such as a static call or a store. */
  lemma UnnamedOpcodesReportOwnLine(i: Instruction)
    requires !(i.Binary? || i.ArrayStore? || i.Inc? || i.Unary? || i.Invoke? || i.Ternary?)
    ensures MinLine(i) == i.line
  {
  }
}
