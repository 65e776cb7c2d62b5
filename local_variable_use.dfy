/**
  The check whether a subtree uses a local variable declared at or after a given
  offset: a load or store counts when the variable it names (looked up by slot
  and offset in the method's local-variable table) starts at or after
  `maxOffset`. The walk is read-only; its reverse-order loops are early-exit
  searches, so lists are modelled as existentials over their elements.
*/
module LocalVariableUse {
  import opened Wrappers
  import opened Instructions

  /** The table lookup by (slot, offset): the `start_pc` of the variable found. */
  type Lookup = (int, int) -> Option<int>

  /** The load or store at (`slot`, `offset`) names a variable starting at or
      after `maxOffset`. */
  predicate OwnUse(lookup: Lookup, maxOffset: int, slot: int, offset: int) {
    lookup(slot, offset).Some? && maxOffset <= lookup(slot, offset).value
  }

  /** `visit(LocalVariables, int, Instruction)`. Array stores look at their index
      and value only; ternary operators at their two values only; FOR at its init
      and increment only; while, do-while and simple-if at their test only; an
      assertion, a constant, a leaf and every opcode the pass does not name give
      false. */
  function Used(lookup: Lookup, maxOffset: int, i: Instruction): bool
    decreases i
  {
    match i
    case Load(_, offset, slot) => OwnUse(lookup, maxOffset, slot, offset)
    case Store(_, offset, slot, v) => OwnUse(lookup, maxOffset, slot, offset) || Used(lookup, maxOffset, v)
    case Unary(_, _, x) => Used(lookup, maxOffset, x)
    case Binary(_, _, a, b) => Used(lookup, maxOffset, a) || Used(lookup, maxOffset, b)
    case ArrayStore(_, _, x, v) => Used(lookup, maxOffset, x) || Used(lookup, maxOffset, v)
    case Ternary(_, _, a, b) => Used(lookup, maxOffset, a) || Used(lookup, maxOffset, b)
    case Inc(_, _, _, v) => Used(lookup, maxOffset, v)
    case Invoke(_, _, _, o, args) => Used(lookup, maxOffset, o) || UsedIn(lookup, maxOffset, args)
    case InvokeStatic(_, _, _, args) => UsedIn(lookup, maxOffset, args)
    case Operands(_, _, operands) => UsedIn(lookup, maxOffset, operands)
    case InitArray(_, n, vs) =>
      Used(lookup, maxOffset, n) || (vs.ListOf? && UsedIn(lookup, maxOffset, vs.items))
    case For(_, init, _, inc, _) =>
      (init.Some? && Used(lookup, maxOffset, init.value)) || (inc.Some? && Used(lookup, maxOffset, inc.value))
    case TestList(_, _, test, _) => test.Some? && Used(lookup, maxOffset, test.value)
    case InfiniteLoop(_, body) => body.ListOf? && UsedIn(lookup, maxOffset, body.items)
    case ForEach(_, v, vs, body) =>
      Used(lookup, maxOffset, v) || Used(lookup, maxOffset, vs) || UsedIn(lookup, maxOffset, body)
    case IfElse(_, t, a, b) =>
      Used(lookup, maxOffset, t) || UsedIn(lookup, maxOffset, a) || UsedIn(lookup, maxOffset, b)
    case Wrapped(_, _, x) => x.Some? && Used(lookup, maxOffset, x.value)
    case Switch(_, _, key, cases) => Used(lookup, maxOffset, key) || UsedInCases(lookup, maxOffset, cases)
    case Try(_, body, catches, fin) =>
      || UsedIn(lookup, maxOffset, body)
      || (fin.ListOf? && UsedIn(lookup, maxOffset, fin.items))
      || UsedInCatches(lookup, maxOffset, catches)
    case Synchronized(_, m, body) => Used(lookup, maxOffset, m) || UsedIn(lookup, maxOffset, body)
    case Leaf(_, _) => false
    case IConst(_, _, _, _) => false
    case Assert(_, _, _) => false
    case Other(_, _) => false
  }

  /** `visit(…, List)`: true iff some element is, whatever the visiting order. */
  function UsedIn(lookup: Lookup, maxOffset: int, s: seq<Instruction>): (r: bool)
    ensures r <==> exists k :: 0 <= k < |s| && Used(lookup, maxOffset, s[k])
    decreases s
  {
    if |s| == 0 then false
    else Used(lookup, maxOffset, s[|s| - 1]) || UsedIn(lookup, maxOffset, s[..|s| - 1])
  }

  /** The switch's case lists from last to first, skipping null ones. */
  function UsedInCases(lookup: Lookup, maxOffset: int, cases: seq<MaybeList>): (r: bool)
    ensures r <==> exists k :: 0 <= k < |cases| && cases[k].ListOf? && UsedIn(lookup, maxOffset, cases[k].items)
    decreases cases
  {
    if |cases| == 0 then false
    else
      var last := cases[|cases| - 1];
      (last.ListOf? && UsedIn(lookup, maxOffset, last.items)) || UsedInCases(lookup, maxOffset, cases[..|cases| - 1])
  }

  /** The try's catch clauses from last to first. */
  function UsedInCatches(lookup: Lookup, maxOffset: int, catches: seq<CatchClause>): (r: bool)
    ensures r <==> exists k :: 0 <= k < |catches| && UsedIn(lookup, maxOffset, catches[k].handler)
    decreases catches
  {
    if |catches| == 0 then false
    else
      UsedIn(lookup, maxOffset, catches[|catches| - 1].handler) || UsedInCatches(lookup, maxOffset, catches[..|catches| - 1])
  }

  // -- Properties ------------------------------------------------------------ //

  /** Every load or store that counts under (`lookup1`, `maxOffset1`) also counts
      under (`lookup2`, `maxOffset2`). */
  ghost predicate Weaker(lookup1: Lookup, maxOffset1: int, lookup2: Lookup, maxOffset2: int) {
    forall slot, offset :: OwnUse(lookup1, maxOffset1, slot, offset) ==> OwnUse(lookup2, maxOffset2, slot, offset)
  }

  /** The pass consults the table only through the own-use test of the loads and
      stores it visits: strengthening that test can only turn false into true. */
  lemma {:induction false} UsedTransfers(lookup1: Lookup, maxOffset1: int, lookup2: Lookup, maxOffset2: int,
                                         i: Instruction)
    requires Weaker(lookup1, maxOffset1, lookup2, maxOffset2)
    ensures Used(lookup1, maxOffset1, i) ==> Used(lookup2, maxOffset2, i)
    decreases i, 1
  {
    if i.For? || i.TestList? || i.InfiniteLoop? || i.ForEach? || i.Wrapped? {
      TransfersInLoop(lookup1, maxOffset1, lookup2, maxOffset2, i);
    } else if i.IfElse? || i.Switch? || i.Try? || i.Synchronized? {
      TransfersInBlock(lookup1, maxOffset1, lookup2, maxOffset2, i);
    } else {
      TransfersInExpression(lookup1, maxOffset1, lookup2, maxOffset2, i);
    }
  }

  /** The expression cases of `UsedTransfers`. */
  lemma {:induction false} TransfersInExpression(lookup1: Lookup, maxOffset1: int, lookup2: Lookup, maxOffset2: int,
                                                 i: Instruction)
    requires Weaker(lookup1, maxOffset1, lookup2, maxOffset2)
    requires !(i.For? || i.TestList? || i.InfiniteLoop? || i.ForEach? || i.IfElse? || i.Wrapped?
               || i.Switch? || i.Try? || i.Synchronized?)
    ensures Used(lookup1, maxOffset1, i) ==> Used(lookup2, maxOffset2, i)
    decreases i, 0
  {
    match i
    case Load(_, offset, slot) =>
      assert OwnUse(lookup1, maxOffset1, slot, offset) ==> OwnUse(lookup2, maxOffset2, slot, offset);
    case Store(_, offset, slot, v) =>
      assert OwnUse(lookup1, maxOffset1, slot, offset) ==> OwnUse(lookup2, maxOffset2, slot, offset);
      UsedTransfers(lookup1, maxOffset1, lookup2, maxOffset2, v);
    case Unary(_, _, x) => UsedTransfers(lookup1, maxOffset1, lookup2, maxOffset2, x);
    case Binary(_, _, a, b) =>
      UsedTransfers(lookup1, maxOffset1, lookup2, maxOffset2, a);
      UsedTransfers(lookup1, maxOffset1, lookup2, maxOffset2, b);
    case ArrayStore(_, _, x, v) =>
      UsedTransfers(lookup1, maxOffset1, lookup2, maxOffset2, x);
      UsedTransfers(lookup1, maxOffset1, lookup2, maxOffset2, v);
    case Ternary(_, _, a, b) =>
      UsedTransfers(lookup1, maxOffset1, lookup2, maxOffset2, a);
      UsedTransfers(lookup1, maxOffset1, lookup2, maxOffset2, b);
    case Inc(_, _, _, v) => UsedTransfers(lookup1, maxOffset1, lookup2, maxOffset2, v);
    case Invoke(_, _, _, o, args) =>
      UsedTransfers(lookup1, maxOffset1, lookup2, maxOffset2, o);
      UsedInTransfers(lookup1, maxOffset1, lookup2, maxOffset2, args);
    case InvokeStatic(_, _, _, args) => UsedInTransfers(lookup1, maxOffset1, lookup2, maxOffset2, args);
    case Operands(_, _, operands) => UsedInTransfers(lookup1, maxOffset1, lookup2, maxOffset2, operands);
    case InitArray(_, n, vs) =>
      UsedTransfers(lookup1, maxOffset1, lookup2, maxOffset2, n);
      if vs.ListOf? {
        UsedInTransfers(lookup1, maxOffset1, lookup2, maxOffset2, vs.items);
      }
    case Leaf(_, _) =>
    case IConst(_, _, _, _) =>
    case Assert(_, _, _) =>
    case Other(_, _) =>
  }

  /** The loop and wrapper cases of `UsedTransfers`. */
  lemma {:induction false} TransfersInLoop(lookup1: Lookup, maxOffset1: int, lookup2: Lookup, maxOffset2: int,
                                           i: Instruction)
    requires Weaker(lookup1, maxOffset1, lookup2, maxOffset2)
    requires i.For? || i.TestList? || i.InfiniteLoop? || i.ForEach? || i.Wrapped?
    ensures Used(lookup1, maxOffset1, i) ==> Used(lookup2, maxOffset2, i)
    decreases i, 0
  {
    match i
    case For(_, init, _, inc, _) =>
      if init.Some? {
        UsedTransfers(lookup1, maxOffset1, lookup2, maxOffset2, init.value);
      }
      if inc.Some? {
        UsedTransfers(lookup1, maxOffset1, lookup2, maxOffset2, inc.value);
      }
    case TestList(_, _, test, _) =>
      if test.Some? {
        UsedTransfers(lookup1, maxOffset1, lookup2, maxOffset2, test.value);
      }
    case InfiniteLoop(_, body) =>
      if body.ListOf? {
        UsedInTransfers(lookup1, maxOffset1, lookup2, maxOffset2, body.items);
      }
    case ForEach(_, v, vs, body) =>
      UsedTransfers(lookup1, maxOffset1, lookup2, maxOffset2, v);
      UsedTransfers(lookup1, maxOffset1, lookup2, maxOffset2, vs);
      UsedInTransfers(lookup1, maxOffset1, lookup2, maxOffset2, body);
    case Wrapped(_, _, x) =>
      if x.Some? {
        UsedTransfers(lookup1, maxOffset1, lookup2, maxOffset2, x.value);
      }
  }

  /** The block cases of `UsedTransfers`. */
  lemma {:induction false} TransfersInBlock(lookup1: Lookup, maxOffset1: int, lookup2: Lookup, maxOffset2: int,
                                            i: Instruction)
    requires Weaker(lookup1, maxOffset1, lookup2, maxOffset2)
    requires i.IfElse? || i.Switch? || i.Try? || i.Synchronized?
    ensures Used(lookup1, maxOffset1, i) ==> Used(lookup2, maxOffset2, i)
    decreases i, 0
  {
    match i
    case IfElse(_, t, a, b) =>
      UsedTransfers(lookup1, maxOffset1, lookup2, maxOffset2, t);
      UsedInTransfers(lookup1, maxOffset1, lookup2, maxOffset2, a);
      UsedInTransfers(lookup1, maxOffset1, lookup2, maxOffset2, b);
    case Switch(_, _, key, cases) =>
      UsedTransfers(lookup1, maxOffset1, lookup2, maxOffset2, key);
      UsedInCasesTransfers(lookup1, maxOffset1, lookup2, maxOffset2, cases);
    case Try(_, body, catches, fin) =>
      UsedInTransfers(lookup1, maxOffset1, lookup2, maxOffset2, body);
      if fin.ListOf? {
        UsedInTransfers(lookup1, maxOffset1, lookup2, maxOffset2, fin.items);
      }
      UsedInCatchesTransfers(lookup1, maxOffset1, lookup2, maxOffset2, catches);
    case Synchronized(_, m, body) =>
      UsedTransfers(lookup1, maxOffset1, lookup2, maxOffset2, m);
      UsedInTransfers(lookup1, maxOffset1, lookup2, maxOffset2, body);
  }

  lemma {:induction false} UsedInTransfers(lookup1: Lookup, maxOffset1: int, lookup2: Lookup, maxOffset2: int,
                                           s: seq<Instruction>)
    requires Weaker(lookup1, maxOffset1, lookup2, maxOffset2)
    ensures UsedIn(lookup1, maxOffset1, s) ==> UsedIn(lookup2, maxOffset2, s)
    decreases s
  {
    if UsedIn(lookup1, maxOffset1, s) {
      var k :| 0 <= k < |s| && Used(lookup1, maxOffset1, s[k]);
      UsedTransfers(lookup1, maxOffset1, lookup2, maxOffset2, s[k]);
    }
  }

  lemma {:induction false} UsedInCasesTransfers(lookup1: Lookup, maxOffset1: int, lookup2: Lookup, maxOffset2: int,
                                                cases: seq<MaybeList>)
    requires Weaker(lookup1, maxOffset1, lookup2, maxOffset2)
    ensures UsedInCases(lookup1, maxOffset1, cases) ==> UsedInCases(lookup2, maxOffset2, cases)
    decreases cases
  {
    if UsedInCases(lookup1, maxOffset1, cases) {
      var k :| 0 <= k < |cases| && cases[k].ListOf? && UsedIn(lookup1, maxOffset1, cases[k].items);
      UsedInTransfers(lookup1, maxOffset1, lookup2, maxOffset2, cases[k].items);
    }
  }

  lemma {:induction false} UsedInCatchesTransfers(lookup1: Lookup, maxOffset1: int, lookup2: Lookup, maxOffset2: int,
                                                  catches: seq<CatchClause>)
    requires Weaker(lookup1, maxOffset1, lookup2, maxOffset2)
    ensures UsedInCatches(lookup1, maxOffset1, catches) ==> UsedInCatches(lookup2, maxOffset2, catches)
    decreases catches
  {
    if UsedInCatches(lookup1, maxOffset1, catches) {
      var k :| 0 <= k < |catches| && UsedIn(lookup1, maxOffset1, catches[k].handler);
      UsedInTransfers(lookup1, maxOffset1, lookup2, maxOffset2, catches[k].handler);
    }
  }

  /** Monotone in `maxOffset`: a use found above some offset is found above every
      smaller one. */
  lemma UsedMonotone(lookup: Lookup, maxOffset: int, smaller: int, i: Instruction)
    requires smaller <= maxOffset
    ensures Used(lookup, maxOffset, i) ==> Used(lookup, smaller, i)
  {
    UsedTransfers(lookup, maxOffset, lookup, smaller, i);
  }

  /** When every variable the table can return starts before `maxOffset`, nothing
      in the tree counts. */
  lemma NoLateVariableNoUse(lookup: Lookup, maxOffset: int, i: Instruction)
    requires forall slot, offset :: lookup(slot, offset).Some? ==> lookup(slot, offset).value < maxOffset
    ensures !Used(lookup, maxOffset, i)
  {
    UsedTransfers(lookup, maxOffset, NoVariable, maxOffset, i);
    NothingFoundNoUse(maxOffset, i);
  }

  /** A table in which no variable is found. */
  function NoVariable(slot: int, offset: int): Option<int> {
    None
  }

  /** With a table that finds no variable, the walk is false everywhere. */
  lemma {:induction false} NothingFoundNoUse(maxOffset: int, i: Instruction)
    ensures !Used(NoVariable, maxOffset, i)
    decreases i, 1
  {
    if i.For? || i.TestList? || i.InfiniteLoop? || i.ForEach? || i.Wrapped? {
      NothingFoundInLoop(maxOffset, i);
    } else if i.IfElse? || i.Switch? || i.Try? || i.Synchronized? {
      NothingFoundInBlock(maxOffset, i);
    } else {
      NothingFoundInExpression(maxOffset, i);
    }
  }

  /** The expression cases of `NothingFoundNoUse`. */
  lemma {:induction false} NothingFoundInExpression(maxOffset: int, i: Instruction)
    requires !(i.For? || i.TestList? || i.InfiniteLoop? || i.ForEach? || i.IfElse? || i.Wrapped?
               || i.Switch? || i.Try? || i.Synchronized?)
    ensures !Used(NoVariable, maxOffset, i)
    decreases i, 0
  {
    match i
    case Load(_, _, _) =>
    case Store(_, _, _, v) => NothingFoundNoUse(maxOffset, v);
    case Unary(_, _, x) => NothingFoundNoUse(maxOffset, x);
    case Binary(_, _, a, b) =>
      NothingFoundNoUse(maxOffset, a);
      NothingFoundNoUse(maxOffset, b);
    case ArrayStore(_, _, x, v) =>
      NothingFoundNoUse(maxOffset, x);
      NothingFoundNoUse(maxOffset, v);
    case Ternary(_, _, a, b) =>
      NothingFoundNoUse(maxOffset, a);
      NothingFoundNoUse(maxOffset, b);
    case Inc(_, _, _, v) => NothingFoundNoUse(maxOffset, v);
    case Invoke(_, _, _, o, args) =>
      NothingFoundNoUse(maxOffset, o);
      NothingFoundInList(maxOffset, args);
    case InvokeStatic(_, _, _, args) => NothingFoundInList(maxOffset, args);
    case Operands(_, _, operands) => NothingFoundInList(maxOffset, operands);
    case InitArray(_, n, vs) =>
      NothingFoundNoUse(maxOffset, n);
      if vs.ListOf? {
        NothingFoundInList(maxOffset, vs.items);
      }
    case Leaf(_, _) =>
    case IConst(_, _, _, _) =>
    case Assert(_, _, _) =>
    case Other(_, _) =>
  }

  /** The loop and single-wrapper cases of `NothingFoundNoUse`. */
  lemma {:induction false} NothingFoundInLoop(maxOffset: int, i: Instruction)
    requires i.For? || i.TestList? || i.InfiniteLoop? || i.ForEach? || i.Wrapped?
    ensures !Used(NoVariable, maxOffset, i)
    decreases i, 0
  {
    match i
    case For(_, init, _, inc, _) =>
      if init.Some? {
        NothingFoundNoUse(maxOffset, init.value);
      }
      if inc.Some? {
        NothingFoundNoUse(maxOffset, inc.value);
      }
    case TestList(_, _, test, _) =>
      if test.Some? {
        NothingFoundNoUse(maxOffset, test.value);
      }
    case InfiniteLoop(_, body) =>
      if body.ListOf? {
        NothingFoundInList(maxOffset, body.items);
      }
    case ForEach(_, v, vs, body) =>
      NothingFoundNoUse(maxOffset, v);
      NothingFoundNoUse(maxOffset, vs);
      NothingFoundInList(maxOffset, body);
    case Wrapped(_, _, x) =>
      if x.Some? {
        NothingFoundNoUse(maxOffset, x.value);
      }
  }

  /** The block cases of `NothingFoundNoUse`. */
  lemma {:induction false} NothingFoundInBlock(maxOffset: int, i: Instruction)
    requires i.IfElse? || i.Switch? || i.Try? || i.Synchronized?
    ensures !Used(NoVariable, maxOffset, i)
    decreases i, 0
  {
    match i
    case IfElse(_, t, a, b) =>
      NothingFoundNoUse(maxOffset, t);
      NothingFoundInList(maxOffset, a);
      NothingFoundInList(maxOffset, b);
    case Switch(_, _, key, cases) =>
      NothingFoundNoUse(maxOffset, key);
      NothingFoundInCases(maxOffset, cases);
    case Try(_, body, catches, fin) =>
      NothingFoundInList(maxOffset, body);
      if fin.ListOf? {
        NothingFoundInList(maxOffset, fin.items);
      }
      NothingFoundInCatches(maxOffset, catches);
    case Synchronized(_, m, body) =>
      NothingFoundNoUse(maxOffset, m);
      NothingFoundInList(maxOffset, body);
  }

  lemma {:induction false} NothingFoundInList(maxOffset: int, s: seq<Instruction>)
    ensures !UsedIn(NoVariable, maxOffset, s)
    decreases s
  {
    if UsedIn(NoVariable, maxOffset, s) {
      var k :| 0 <= k < |s| && Used(NoVariable, maxOffset, s[k]);
      NothingFoundNoUse(maxOffset, s[k]);
    }
  }

  lemma {:induction false} NothingFoundInCases(maxOffset: int, cases: seq<MaybeList>)
    ensures !UsedInCases(NoVariable, maxOffset, cases)
    decreases cases
  {
    if UsedInCases(NoVariable, maxOffset, cases) {
      var k :| 0 <= k < |cases| && cases[k].ListOf? && UsedIn(NoVariable, maxOffset, cases[k].items);
      NothingFoundInList(maxOffset, cases[k].items);
    }
  }

  lemma {:induction false} NothingFoundInCatches(maxOffset: int, catches: seq<CatchClause>)
    ensures !UsedInCatches(NoVariable, maxOffset, catches)
    decreases catches
  {
    if UsedInCatches(NoVariable, maxOffset, catches) {
      var k :| 0 <= k < |catches| && UsedIn(NoVariable, maxOffset, catches[k].handler);
      NothingFoundInList(maxOffset, catches[k].handler);
    }
  }

  /** FOR never looks at its test or its body. */
  lemma ForIgnoresTestAndBody(lookup: Lookup, maxOffset: int, line: int, init: Option<Instruction>,
                              test1: Option<Instruction>, test2: Option<Instruction>, inc: Option<Instruction>,
                              body1: seq<Instruction>, body2: seq<Instruction>)
    ensures Used(lookup, maxOffset, For(line, init, test1, inc, body1)) ==
            Used(lookup, maxOffset, For(line, init, test2, inc, body2))
    ensures Used(lookup, maxOffset, For(line, None, test1, None, body1)) == false
  {
  }

  /** Array stores never look at their array operand: only the index and the
      value decide. */
  lemma ArrayStoreSkipsArrayref(lookup: Lookup, maxOffset: int, line: int, a1: Instruction, a2: Instruction,
                                x: Instruction, v: Instruction)
    ensures Used(lookup, maxOffset, ArrayStore(line, a1, x, v)) == Used(lookup, maxOffset, ArrayStore(line, a2, x, v))
    ensures Used(lookup, maxOffset, ArrayStore(line, a1, x, v)) == (Used(lookup, maxOffset, x) || Used(lookup, maxOffset, v))
  {
  }

  /** Ternary operators never look at their test: only the two values decide. */
  lemma TernarySkipsTest(lookup: Lookup, maxOffset: int, line: int, t1: Instruction, t2: Instruction,
                         x: Instruction, v: Instruction)
    ensures Used(lookup, maxOffset, Ternary(line, t1, x, v)) == Used(lookup, maxOffset, Ternary(line, t2, x, v))
    ensures Used(lookup, maxOffset, Ternary(line, t1, x, v)) == (Used(lookup, maxOffset, x) || Used(lookup, maxOffset, v))
  {
  }

  /** An assertion is an opcode the pass does not name: false, whatever it holds. */
  lemma AssertNeverUses(lookup: Lookup, maxOffset: int, line: int, test: Instruction, msg: Option<Instruction>)
    ensures !Used(lookup, maxOffset, Assert(line, test, msg))
  {
  }

  /** A store to a variable starting at `maxOffset` counts even though its value
      reads only an earlier variable; a load of that earlier variable does not. */
  lemma StoreOfLateVariableUsed()
    ensures var lookup: Lookup := (slot, offset) => if slot == 1 then Some(20) else Some(0);
            && Used(lookup, 20, Store(5, 24, 1, Load(5, 22, 2)))
            && !Used(lookup, 20, Load(5, 22, 2))
  {
  }
}
