/**
  The pass that retypes the character argument of `String.indexOf(int…)` and
  `String.lastIndexOf(int…)`: when such a call's first argument is a BIPUSH or
  SIPUSH constant, the constant's returned signature becomes "C", so that it is
  later written as a character literal. The constant-pool lookups on the way can
  throw; an exception aborts the whole pass and is returned as an `Err`.
*/
module StringIndexOf {
  import opened Wrappers
  import opened ConstantPools
  import opened Instructions

  /** The first argument's opcode is BIPUSH or SIPUSH. */
  predicate IsBytePush(x: Instruction) {
    x.IConst? && (x.push == BipushPush || x.push == SipushPush)
  }

  /** Every condition under which the rewrite fires, stated on the table. */
  predicate IsStringIndexOfCall(pool: seq<Constant>, stringNameIndex: int, methodIndex: int, args: seq<Instruction>) {
    && 0 <= methodIndex < |pool| && pool[methodIndex].Methodref?
    && var cmr := pool[methodIndex];
       && 0 <= cmr.classIndex < |pool| && pool[cmr.classIndex] == Class(stringNameIndex)
       && 1 <= |args| <= 2 && IsBytePush(args[0])
       && cmr.returnedSignature == Some("I")
       && cmr.parameterSignatures.Some? && |cmr.parameterSignatures.value| > 0
       && cmr.parameterSignatures.value[0] == "I"
       && 0 <= cmr.nameAndTypeIndex < |pool| && pool[cmr.nameAndTypeIndex].NameAndType?
       && (Utf8At(pool, pool[cmr.nameAndTypeIndex].nameIndex) == Ok("indexOf") ||
           Utf8At(pool, pool[cmr.nameAndTypeIndex].nameIndex) == Ok("lastIndexOf"))
  }

  /** The INVOKEVIRTUAL test, with the exceptions its lookups throw, in the order
      it performs them: the methodref and its class (a null slot fails on the
      first dereference), the class name index, the argument count and first
      opcode, the returned and first parameter signatures (null lists and an
      empty parameter list throw), then the method's name. */
  function StringIndexOfCall(pool: seq<Constant>, stringNameIndex: int, methodIndex: int,
                             args: seq<Instruction>): (r: Result<bool, PoolError>)
    ensures r == Ok(true) <==> IsStringIndexOfCall(pool, stringNameIndex, methodIndex, args)
    ensures r.Ok? ==> 0 <= methodIndex < |pool| && pool[methodIndex].Methodref?
    ensures !(0 <= methodIndex < |pool|) ==> r == Err(IndexOutOfBounds)
  {
    match CastAt(pool, methodIndex, MethodrefKind)
    case Err(e) => Err(e)
    case Ok(None) => Err(NullPointer)
    case Ok(Some(cmr)) =>
      match CastAt(pool, cmr.classIndex, ClassKind)
      case Err(e) => Err(e)
      case Ok(None) => Err(NullPointer)
      case Ok(Some(cc)) =>
        if cc.nameIndex != stringNameIndex || !(1 <= |args| <= 2) || !IsBytePush(args[0]) then Ok(false)
        else if cmr.returnedSignature.None? then Err(NullPointer)
        else if cmr.returnedSignature.value != "I" then Ok(false)
        else if cmr.parameterSignatures.None? then Err(NullPointer)
        else if |cmr.parameterSignatures.value| == 0 then Err(IndexOutOfBounds)
        else if cmr.parameterSignatures.value[0] != "I" then Ok(false)
        else
          match CastAt(pool, cmr.nameAndTypeIndex, NameAndTypeKind)
          case Err(e) => Err(e)
          case Ok(None) => Err(NullPointer)
          case Ok(Some(cnat)) =>
            var name :- Utf8At(pool, cnat.nameIndex);
            Ok(name == "indexOf" || name == "lastIndexOf")
  }

  // -- The shape of a tree, with every constant's returned signature blanked -- //

  /** The tree with every IConst signature blanked: two trees with the same
      erasure differ at most in those signatures. */
  function Erase(i: Instruction): Instruction
    decreases i
  {
    match i
    case IConst(l, p, v, _) => IConst(l, p, v, "")
    case Store(l, o, slot, v) => Store(l, o, slot, Erase(v))
    case Unary(l, op, x) => Unary(l, op, Erase(x))
    case Binary(l, op, a, b) => Binary(l, op, Erase(a), Erase(b))
    case ArrayStore(l, a, x, v) => ArrayStore(l, Erase(a), Erase(x), Erase(v))
    case Ternary(l, t, a, b) => Ternary(l, Erase(t), Erase(a), Erase(b))
    case Inc(l, post, count, v) => Inc(l, post, count, Erase(v))
    case Assert(l, t, m) => Assert(l, Erase(t), EraseOption(m))
    case Invoke(l, k, m, o, args) => Invoke(l, k, m, Erase(o), EraseSeq(args))
    case InvokeStatic(l, isNew, m, args) => InvokeStatic(l, isNew, m, EraseSeq(args))
    case Operands(l, op, operands) => Operands(l, op, EraseSeq(operands))
    case InitArray(l, n, vs) => InitArray(l, Erase(n), EraseList(vs))
    case For(l, a, t, b, body) => For(l, EraseOption(a), EraseOption(t), EraseOption(b), EraseSeq(body))
    case TestList(l, k, t, body) => TestList(l, k, EraseOption(t), EraseSeq(body))
    case InfiniteLoop(l, body) => InfiniteLoop(l, EraseList(body))
    case ForEach(l, v, vs, body) => ForEach(l, Erase(v), Erase(vs), EraseSeq(body))
    case IfElse(l, t, a, b) => IfElse(l, Erase(t), EraseSeq(a), EraseSeq(b))
    case Wrapped(l, k, x) => Wrapped(l, k, EraseOption(x))
    case Switch(l, k, key, cases) =>
      Switch(l, k, Erase(key), EraseCases(cases))
    case Try(l, body, catches, fin) =>
      Try(l, EraseSeq(body), EraseCatches(catches), EraseList(fin))
    case Synchronized(l, m, body) => Synchronized(l, Erase(m), EraseSeq(body))
    case Leaf(_, _) => i
    case Load(_, _, _) => i
    case Other(_, _) => i
  }

  function EraseSeq(s: seq<Instruction>): (r: seq<Instruction>)
    ensures |r| == |s|
    decreases s
  {
    seq(|s|, k requires 0 <= k < |s| => Erase(s[k]))
  }

  function EraseCases(cases: seq<MaybeList>): seq<MaybeList>
    decreases cases
  {
    seq(|cases|, j requires 0 <= j < |cases| => EraseList(cases[j]))
  }

  function EraseCatches(catches: seq<CatchClause>): seq<CatchClause>
    decreases catches
  {
    seq(|catches|, j requires 0 <= j < |catches| => CatchClause(EraseSeq(catches[j].handler)))
  }

  function EraseOption(x: Option<Instruction>): Option<Instruction>
    decreases x
  {
    if x.Some? then Some(Erase(x.value)) else None
  }

  function EraseList(x: MaybeList): MaybeList
    decreases x
  {
    if x.ListOf? then ListOf(EraseSeq(x.items)) else NullList
  }

  // -- The pass ------------------------------------------------------------ //

  /** `visit(Instruction)`: the tree with the matching constants retyped, or the
      first exception a lookup throws. Array stores visit only their array; the
      second operand of ARRAYLOAD, ternary operators, constants, loads and every
      opcode the pass does not name are left alone. A call that matches has its
      first argument retyped and nothing below it visited; any other virtual call,
      and every interface or special call, visits its object then its arguments. */
  function Retype(pool: seq<Constant>, stringNameIndex: int, i: Instruction): (r: Result<Instruction, PoolError>)
    ensures i.IConst? || i.Leaf? || i.Load? || i.Other? ==> r == Ok(i)
    decreases i
  {
    match i
    case Store(l, o, slot, v) =>
      var v' :- Retype(pool, stringNameIndex, v);
      Ok(Store(l, o, slot, v'))
    case Unary(l, op, x) =>
      var x' :- Retype(pool, stringNameIndex, x);
      Ok(Unary(l, op, x'))
    case Binary(l, op, a, b) =>
      if op == ArrayLoad then Ok(i)
      else
        var a' :- Retype(pool, stringNameIndex, a);
        var b' :- Retype(pool, stringNameIndex, b);
        Ok(Binary(l, op, a', b'))
    case ArrayStore(l, a, x, v) =>
      var a' :- Retype(pool, stringNameIndex, a);
      Ok(ArrayStore(l, a', x, v))
    case Inc(l, post, count, v) =>
      var v' :- Retype(pool, stringNameIndex, v);
      Ok(Inc(l, post, count, v'))
    case Assert(l, t, m) =>
      var t' :- Retype(pool, stringNameIndex, t);
      if m.None? then Ok(Assert(l, t', m))
      else
        var m' :- Retype(pool, stringNameIndex, m.value);
        Ok(Assert(l, t', Some(m')))
    case Invoke(l, k, m, o, args) =>
      var matched :- if k == InvokeVirtual then StringIndexOfCall(pool, stringNameIndex, m, args) else Ok(false);
      if matched then
        Ok(Invoke(l, k, m, o, FirstArgumentAsChar(args)))
      else
        var o' :- Retype(pool, stringNameIndex, o);
        var args' :- RetypeSeq(pool, stringNameIndex, args);
        Ok(Invoke(l, k, m, o', args'))
    case InvokeStatic(l, isNew, m, args) =>
      var args' :- RetypeSeq(pool, stringNameIndex, args);
      Ok(InvokeStatic(l, isNew, m, args'))
    case Operands(l, op, operands) =>
      var operands' :- RetypeSeq(pool, stringNameIndex, operands);
      Ok(Operands(l, op, operands'))
    case InitArray(l, n, vs) =>
      var n' :- Retype(pool, stringNameIndex, n);
      if vs.NullList? then Ok(InitArray(l, n', vs))
      else
        var items' :- RetypeSeq(pool, stringNameIndex, vs.items);
        Ok(InitArray(l, n', ListOf(items')))
    case _ => Ok(i)
  }

  /** The rewrite of a matching call: the first argument's signature becomes "C";
      every argument keeps its place and everything but that signature. */
  function FirstArgumentAsChar(args: seq<Instruction>): (r: seq<Instruction>)
    requires |args| > 0 && args[0].IConst?
    ensures |r| == |args| && r[1..] == args[1..]
    ensures r[0] == args[0].(signature := "C")
    ensures EraseSeq(r) == EraseSeq(args)
  {
    var r := [args[0].(signature := "C")] + args[1..];
    assert forall j :: 0 <= j < |args| ==> Erase(r[j]) == Erase(args[j]);
    r
  }

  /** `visit(List)`: the elements from last to first, so the exception reported
      is that of the last element that throws. */
  function RetypeSeq(pool: seq<Constant>, stringNameIndex: int, s: seq<Instruction>): (r: Result<seq<Instruction>, PoolError>)
    ensures r.Ok? ==> |r.value| == |s|
    decreases s
  {
    if |s| == 0 then Ok([])
    else
      var rest :- RetypeSeq(pool, stringNameIndex, s[1..]);
      var first :- Retype(pool, stringNameIndex, s[0]);
      Ok([first] + rest)
  }

  /** `visit(List)` on the list itself: the elements are visited from last to
      first and each is replaced by its retyped tree; an exception stops the loop,
      leaving the elements already visited rewritten. */
  method RetypeList(pool: seq<Constant>, stringNameIndex: int, list: array<Instruction>)
    returns (thrown: Option<PoolError>)
    modifies list
    ensures thrown.None? <==> RetypeSeq(pool, stringNameIndex, old(list[..])).Ok?
    ensures thrown.None? ==> list[..] == RetypeSeq(pool, stringNameIndex, old(list[..])).value
    ensures thrown.Some? ==> RetypeSeq(pool, stringNameIndex, old(list[..])) == Err(thrown.value)
  {
    var i := list.Length;
    while i > 0
      invariant 0 <= i <= list.Length
      invariant list[..i] == old(list[..i])
      invariant RetypeSeq(pool, stringNameIndex, old(list[..])[i..]) == Ok(list[i..])
    {
      i := i - 1;
      var r := Retype(pool, stringNameIndex, list[i]);
      RetypeSeqStep(pool, stringNameIndex, old(list[..]), i, list[i + 1..]);
      if r.Err? {
        ErrorInSuffixIsReported(pool, stringNameIndex, old(list[..]), i);
        return Some(r.error);
      }
      list[i] := r.value;
      assert list[i..] == [r.value] + list[i + 1..];
    }
    assert old(list[..])[0..] == old(list[..]);
    return None;
  }

  /** One step of the list visit: the suffix from `i` is the suffix after it,
      then element `i`. */
  lemma RetypeSeqStep(pool: seq<Constant>, stringNameIndex: int, s: seq<Instruction>, i: nat,
                      rest: seq<Instruction>)
    requires i < |s| && RetypeSeq(pool, stringNameIndex, s[i + 1..]) == Ok(rest)
    ensures var x := Retype(pool, stringNameIndex, s[i]);
            RetypeSeq(pool, stringNameIndex, s[i..]) == if x.Err? then Err(x.error) else Ok([x.value] + rest)
  {
    assert s[i..][1..] == s[i + 1..];
  }

  /** The list visit reports an exception of any suffix: later elements are
      visited first. */
  lemma {:induction false} ErrorInSuffixIsReported(pool: seq<Constant>, stringNameIndex: int,
                                                 s: seq<Instruction>, i: nat)
    requires i <= |s| && RetypeSeq(pool, stringNameIndex, s[i..]).Err?
    ensures RetypeSeq(pool, stringNameIndex, s) == RetypeSeq(pool, stringNameIndex, s[i..])
    decreases i
  {
    if i > 0 {
      assert s[1..][i - 1..] == s[i..];
      ErrorInSuffixIsReported(pool, stringNameIndex, s[1..], i - 1);
    } else {
      assert s[0..] == s;
    }
  }

  // -- Properties ------------------------------------------------------------ //

  /** The pass changes nothing but constants' signatures: the retyped tree has
      the erasure of the original. */
  ghost predicate KeepsShape(pool: seq<Constant>, stringNameIndex: int, i: Instruction) {
    var r := Retype(pool, stringNameIndex, i);
    r.Ok? ==> Erase(r.value) == Erase(i)
  }

  ghost predicate SeqKeepsShape(pool: seq<Constant>, stringNameIndex: int, s: seq<Instruction>) {
    var r := RetypeSeq(pool, stringNameIndex, s);
    r.Ok? ==> EraseSeq(r.value) == EraseSeq(s)
  }

  lemma {:induction false} RetypeKeepsShape(pool: seq<Constant>, stringNameIndex: int, i: Instruction)
    ensures KeepsShape(pool, stringNameIndex, i)
    decreases i
  {
    match i
    case Store(_, _, _, v) =>
      RetypeKeepsShape(pool, stringNameIndex, v);
      OneChildKeepsShape(pool, stringNameIndex, i, v);
    case Unary(_, _, x) =>
      RetypeKeepsShape(pool, stringNameIndex, x);
      OneChildKeepsShape(pool, stringNameIndex, i, x);
    case Binary(_, _, a, b) =>
      RetypeKeepsShape(pool, stringNameIndex, a);
      RetypeKeepsShape(pool, stringNameIndex, b);
      BinaryKeepsShape(pool, stringNameIndex, i);
    case ArrayStore(_, a, _, _) =>
      RetypeKeepsShape(pool, stringNameIndex, a);
      OneChildKeepsShape(pool, stringNameIndex, i, a);
    case Inc(_, _, _, v) =>
      RetypeKeepsShape(pool, stringNameIndex, v);
      OneChildKeepsShape(pool, stringNameIndex, i, v);
    case Assert(_, t, m) =>
      RetypeKeepsShape(pool, stringNameIndex, t);
      if m.Some? {
        RetypeKeepsShape(pool, stringNameIndex, m.value);
      }
      AssertKeepsShape(pool, stringNameIndex, i);
    case Invoke(_, _, _, o, args) =>
      RetypeKeepsShape(pool, stringNameIndex, o);
      RetypeSeqKeepsShape(pool, stringNameIndex, args);
      InvokeKeepsShape(pool, stringNameIndex, i);
    case InvokeStatic(_, _, _, args) =>
      RetypeSeqKeepsShape(pool, stringNameIndex, args);
      ListChildKeepsShape(pool, stringNameIndex, i, args);
    case Operands(_, _, operands) =>
      RetypeSeqKeepsShape(pool, stringNameIndex, operands);
      ListChildKeepsShape(pool, stringNameIndex, i, operands);
    case InitArray(_, n, vs) =>
      RetypeKeepsShape(pool, stringNameIndex, n);
      if vs.ListOf? {
        RetypeSeqKeepsShape(pool, stringNameIndex, vs.items);
      }
      InitArrayKeepsShape(pool, stringNameIndex, i);
    case _ =>
      UnvisitedOpcodesUnchanged(pool, stringNameIndex, i);
  }

  /** The cases of `RetypeKeepsShape` with one visited child. */
  lemma OneChildKeepsShape(pool: seq<Constant>, stringNameIndex: int, i: Instruction, child: Instruction)
    requires || (i.Store? && child == i.valueref) || (i.Unary? && child == i.operand)
             || (i.ArrayStore? && child == i.arrayref) || (i.Inc? && child == i.incremented)
    requires KeepsShape(pool, stringNameIndex, child)
    ensures KeepsShape(pool, stringNameIndex, i)
  {
  }

  /** The cases of `RetypeKeepsShape` that visit one list of children. */
  lemma ListChildKeepsShape(pool: seq<Constant>, stringNameIndex: int, i: Instruction, s: seq<Instruction>)
    requires (i.InvokeStatic? && s == i.args) || (i.Operands? && s == i.operands)
    requires SeqKeepsShape(pool, stringNameIndex, s)
    ensures KeepsShape(pool, stringNameIndex, i)
  {
  }

  lemma BinaryKeepsShape(pool: seq<Constant>, stringNameIndex: int, i: Instruction)
    requires i.Binary? && KeepsShape(pool, stringNameIndex, i.left) && KeepsShape(pool, stringNameIndex, i.right)
    ensures KeepsShape(pool, stringNameIndex, i)
  {
  }

  lemma AssertKeepsShape(pool: seq<Constant>, stringNameIndex: int, i: Instruction)
    requires i.Assert? && KeepsShape(pool, stringNameIndex, i.test)
    requires i.msg.Some? ==> KeepsShape(pool, stringNameIndex, i.msg.value)
    ensures KeepsShape(pool, stringNameIndex, i)
  {
  }

  lemma InvokeKeepsShape(pool: seq<Constant>, stringNameIndex: int, i: Instruction)
    requires i.Invoke? && KeepsShape(pool, stringNameIndex, i.objectref)
    requires SeqKeepsShape(pool, stringNameIndex, i.args)
    ensures KeepsShape(pool, stringNameIndex, i)
  {
  }

  lemma InitArrayKeepsShape(pool: seq<Constant>, stringNameIndex: int, i: Instruction)
    requires i.InitArray? && KeepsShape(pool, stringNameIndex, i.newArray)
    requires i.initValues.ListOf? ==> SeqKeepsShape(pool, stringNameIndex, i.initValues.items)
    ensures KeepsShape(pool, stringNameIndex, i)
  {
  }

  lemma {:induction false} RetypeSeqKeepsShape(pool: seq<Constant>, stringNameIndex: int, s: seq<Instruction>)
    ensures SeqKeepsShape(pool, stringNameIndex, s)
    decreases s
  {
    var r := RetypeSeq(pool, stringNameIndex, s);
    if r.Ok? && |s| > 0 {
      RetypeSeqKeepsShape(pool, stringNameIndex, s[1..]);
      RetypeKeepsShape(pool, stringNameIndex, s[0]);
      var rest := RetypeSeq(pool, stringNameIndex, s[1..]).value;
      assert r.value == [Retype(pool, stringNameIndex, s[0]).value] + rest;
      forall j | 0 < j < |s|
        ensures Erase(r.value[j]) == Erase(s[j])
      {
        assert EraseSeq(rest)[j - 1] == EraseSeq(s[1..])[j - 1];
      }
    }
  }

  /** `b` is `a` with some constants' signatures turned into "C": either the
      two are equal, or `a` is a constant and `b` the same constant typed "C", or
      `a` is a node the pass visits and `b` differs from it only in the operands
      the pass visits, each related in the same way. So every signature that
      differs is "C", and below every other node nothing differs at all. */
  ghost predicate OnlyCharRetyped(a: Instruction, b: Instruction)
    decreases a
  {
    || a == b
    || match a
       case IConst(l, p, v, _) => b == IConst(l, p, v, "C")
       case Store(l, o, slot, v) =>
         b.Store? && b == Store(l, o, slot, b.valueref) && OnlyCharRetyped(v, b.valueref)
       case Unary(l, op, x) =>
         b.Unary? && b == Unary(l, op, b.operand) && OnlyCharRetyped(x, b.operand)
       case Binary(l, op, x, y) =>
         && b.Binary? && b == Binary(l, op, b.left, b.right)
         && OnlyCharRetyped(x, b.left) && OnlyCharRetyped(y, b.right)
       case ArrayStore(l, x, idx, v) =>
         b.ArrayStore? && b == ArrayStore(l, b.arrayref, idx, v) && OnlyCharRetyped(x, b.arrayref)
       case Inc(l, post, count, v) =>
         b.Inc? && b == Inc(l, post, count, b.incremented) && OnlyCharRetyped(v, b.incremented)
       case Assert(l, t, m) =>
         && b.Assert? && b == Assert(l, b.test, b.msg) && OnlyCharRetyped(t, b.test)
         && (m.None? ==> b.msg.None?) && (m.Some? ==> b.msg.Some? && OnlyCharRetyped(m.value, b.msg.value))
       case Invoke(l, k, m, o, args) =>
         && b.Invoke? && b == Invoke(l, k, m, b.objectref, b.args)
         && OnlyCharRetyped(o, b.objectref) && SeqOnlyCharRetyped(args, b.args)
       case InvokeStatic(l, isNew, m, args) =>
         b.InvokeStatic? && b == InvokeStatic(l, isNew, m, b.args) && SeqOnlyCharRetyped(args, b.args)
       case Operands(l, op, operands) =>
         b.Operands? && b == Operands(l, op, b.operands) && SeqOnlyCharRetyped(operands, b.operands)
       case InitArray(l, n, vs) =>
         && b.InitArray? && b == InitArray(l, b.newArray, b.initValues)
         && OnlyCharRetyped(n, b.newArray)
         && (vs.NullList? ==> b.initValues.NullList?)
         && (vs.ListOf? ==> b.initValues.ListOf? && SeqOnlyCharRetyped(vs.items, b.initValues.items))
       case _ => false
  }

  ghost predicate SeqOnlyCharRetyped(s: seq<Instruction>, t: seq<Instruction>)
    decreases s
  {
    |t| == |s| && forall k :: 0 <= k < |s| ==> OnlyCharRetyped(s[k], t[k])
  }

  ghost predicate RetypesOnlyToChar(pool: seq<Constant>, stringNameIndex: int, i: Instruction) {
    var r := Retype(pool, stringNameIndex, i);
    r.Ok? ==> OnlyCharRetyped(i, r.value)
  }

  ghost predicate SeqRetypesOnlyToChar(pool: seq<Constant>, stringNameIndex: int, s: seq<Instruction>) {
    var r := RetypeSeq(pool, stringNameIndex, s);
    r.Ok? ==> SeqOnlyCharRetyped(s, r.value)
  }

  /** The only signature the pass ever writes is "C": every constant of the
      rewritten tree has its old signature or "C". */
  lemma {:induction false} RetypeOnlyToChar(pool: seq<Constant>, stringNameIndex: int, i: Instruction)
    ensures RetypesOnlyToChar(pool, stringNameIndex, i)
    decreases i
  {
    match i
    case Store(_, _, _, v) =>
      RetypeOnlyToChar(pool, stringNameIndex, v);
      OneChildOnlyToChar(pool, stringNameIndex, i, v);
    case Unary(_, _, x) =>
      RetypeOnlyToChar(pool, stringNameIndex, x);
      OneChildOnlyToChar(pool, stringNameIndex, i, x);
    case Binary(_, _, a, b) =>
      RetypeOnlyToChar(pool, stringNameIndex, a);
      RetypeOnlyToChar(pool, stringNameIndex, b);
      BinaryOnlyToChar(pool, stringNameIndex, i);
    case ArrayStore(_, a, _, _) =>
      RetypeOnlyToChar(pool, stringNameIndex, a);
      ArrayStoreOnlyToChar(pool, stringNameIndex, i);
    case Inc(_, _, _, v) =>
      RetypeOnlyToChar(pool, stringNameIndex, v);
      OneChildOnlyToChar(pool, stringNameIndex, i, v);
    case Assert(_, t, m) =>
      RetypeOnlyToChar(pool, stringNameIndex, t);
      if m.Some? {
        RetypeOnlyToChar(pool, stringNameIndex, m.value);
      }
      AssertOnlyToChar(pool, stringNameIndex, i);
    case Invoke(_, _, _, o, args) =>
      RetypeOnlyToChar(pool, stringNameIndex, o);
      RetypeSeqOnlyToChar(pool, stringNameIndex, args);
      InvokeOnlyToChar(pool, stringNameIndex, i);
    case InvokeStatic(_, _, _, args) =>
      RetypeSeqOnlyToChar(pool, stringNameIndex, args);
      ListChildOnlyToChar(pool, stringNameIndex, i, args);
    case Operands(_, _, operands) =>
      RetypeSeqOnlyToChar(pool, stringNameIndex, operands);
      ListChildOnlyToChar(pool, stringNameIndex, i, operands);
    case InitArray(_, n, vs) =>
      RetypeOnlyToChar(pool, stringNameIndex, n);
      if vs.ListOf? {
        RetypeSeqOnlyToChar(pool, stringNameIndex, vs.items);
      }
      InitArrayOnlyToChar(pool, stringNameIndex, i);
    case _ =>
      UnvisitedOpcodesUnchanged(pool, stringNameIndex, i);
  }

  /** The cases of `RetypeOnlyToChar` with one child, and that child visited. */
  lemma OneChildOnlyToChar(pool: seq<Constant>, stringNameIndex: int, i: Instruction, child: Instruction)
    requires (i.Store? && child == i.valueref) || (i.Unary? && child == i.operand) || (i.Inc? && child == i.incremented)
    requires RetypesOnlyToChar(pool, stringNameIndex, child)
    ensures RetypesOnlyToChar(pool, stringNameIndex, i)
  {
  }

  /** The array store case of `RetypeOnlyToChar`: the index and the value are kept. */
  lemma ArrayStoreOnlyToChar(pool: seq<Constant>, stringNameIndex: int, i: Instruction)
    requires i.ArrayStore? && RetypesOnlyToChar(pool, stringNameIndex, i.arrayref)
    ensures RetypesOnlyToChar(pool, stringNameIndex, i)
  {
  }

  /** The cases of `RetypeOnlyToChar` that visit one list of children. */
  lemma ListChildOnlyToChar(pool: seq<Constant>, stringNameIndex: int, i: Instruction, s: seq<Instruction>)
    requires (i.InvokeStatic? && s == i.args) || (i.Operands? && s == i.operands)
    requires SeqRetypesOnlyToChar(pool, stringNameIndex, s)
    ensures RetypesOnlyToChar(pool, stringNameIndex, i)
  {
  }

  lemma BinaryOnlyToChar(pool: seq<Constant>, stringNameIndex: int, i: Instruction)
    requires i.Binary? && RetypesOnlyToChar(pool, stringNameIndex, i.left)
    requires RetypesOnlyToChar(pool, stringNameIndex, i.right)
    ensures RetypesOnlyToChar(pool, stringNameIndex, i)
  {
  }

  lemma AssertOnlyToChar(pool: seq<Constant>, stringNameIndex: int, i: Instruction)
    requires i.Assert? && RetypesOnlyToChar(pool, stringNameIndex, i.test)
    requires i.msg.Some? ==> RetypesOnlyToChar(pool, stringNameIndex, i.msg.value)
    ensures RetypesOnlyToChar(pool, stringNameIndex, i)
  {
  }

  lemma InitArrayOnlyToChar(pool: seq<Constant>, stringNameIndex: int, i: Instruction)
    requires i.InitArray? && RetypesOnlyToChar(pool, stringNameIndex, i.newArray)
    requires i.initValues.ListOf? ==> SeqRetypesOnlyToChar(pool, stringNameIndex, i.initValues.items)
    ensures RetypesOnlyToChar(pool, stringNameIndex, i)
  {
  }

  /** The call case of `RetypeOnlyToChar`: a matched call retypes its first
      argument, a constant, to "C" and keeps everything else. */
  lemma InvokeOnlyToChar(pool: seq<Constant>, stringNameIndex: int, i: Instruction)
    requires i.Invoke? && RetypesOnlyToChar(pool, stringNameIndex, i.objectref)
    requires SeqRetypesOnlyToChar(pool, stringNameIndex, i.args)
    ensures RetypesOnlyToChar(pool, stringNameIndex, i)
  {
    if i.kind == InvokeVirtual && StringIndexOfCall(pool, stringNameIndex, i.methodIndex, i.args) == Ok(true) {
      FirstArgumentOnlyToChar(i.args);
    }
  }

  /** Retyping the first argument is a change to "C" only. */
  lemma FirstArgumentOnlyToChar(args: seq<Instruction>)
    requires |args| > 0 && args[0].IConst?
    ensures SeqOnlyCharRetyped(args, FirstArgumentAsChar(args))
  {
    var args' := FirstArgumentAsChar(args);
    forall k | 0 < k < |args|
      ensures args'[k] == args[k]
    {
      assert args'[k] == args'[1..][k - 1];
    }
  }

  lemma {:induction false} RetypeSeqOnlyToChar(pool: seq<Constant>, stringNameIndex: int, s: seq<Instruction>)
    ensures SeqRetypesOnlyToChar(pool, stringNameIndex, s)
    decreases s
  {
    var r := RetypeSeq(pool, stringNameIndex, s);
    if r.Ok? && |s| > 0 {
      RetypeSeqOnlyToChar(pool, stringNameIndex, s[1..]);
      RetypeOnlyToChar(pool, stringNameIndex, s[0]);
      var rest := RetypeSeq(pool, stringNameIndex, s[1..]).value;
      assert r.value == [Retype(pool, stringNameIndex, s[0]).value] + rest;
      forall j | 0 < j < |s|
        ensures OnlyCharRetyped(s[j], r.value[j])
      {
        assert s[1..][j - 1] == s[j] && rest[j - 1] == r.value[j];
      }
    }
  }

  /** A call that fails the test keeps a loaded or constant first argument as it
      is; in particular a constant pushed by ICONST is never retyped, since the
      test asks for BIPUSH or SIPUSH. */
  lemma UnmatchedCallKeepsFirstArgument(pool: seq<Constant>, stringNameIndex: int, line: int, kind: InvokeKind,
                                        methodIndex: int, objectref: Instruction, args: seq<Instruction>)
    requires |args| > 0 && (args[0].Load? || args[0].IConst?)
    requires || kind != InvokeVirtual || !IsBytePush(args[0])
             || StringIndexOfCall(pool, stringNameIndex, methodIndex, args) != Ok(true)
    ensures var r := Retype(pool, stringNameIndex, Invoke(line, kind, methodIndex, objectref, args));
            r.Ok? ==> r.value.Invoke? && |r.value.args| == |args| && r.value.args[0] == args[0]
  {
    var r := RetypeSeq(pool, stringNameIndex, args);
    if r.Ok? {
      assert Retype(pool, stringNameIndex, args[0]) == Ok(args[0]);
      assert r.value[0] == args[0];
    }
  }

  /** Blanking signatures keeps every opcode, so the first-argument test sees the
      same thing before and after a rewrite. */
  lemma EraseKeepsOpcode(x: Instruction)
    ensures IsBytePush(Erase(x)) == IsBytePush(x)
    ensures Erase(x).IConst? == x.IConst?
  {
  }

  /** The INVOKEVIRTUAL test never reads a signature the pass writes: two argument
      lists that differ only in constants' signatures give the same outcome. */
  lemma TestIgnoresSignatures(pool: seq<Constant>, stringNameIndex: int, methodIndex: int,
                              args1: seq<Instruction>, args2: seq<Instruction>)
    requires EraseSeq(args1) == EraseSeq(args2)
    ensures StringIndexOfCall(pool, stringNameIndex, methodIndex, args1) ==
            StringIndexOfCall(pool, stringNameIndex, methodIndex, args2)
  {
    if |args1| > 0 {
      assert Erase(args1[0]) == EraseSeq(args1)[0] == EraseSeq(args2)[0] == Erase(args2[0]);
      EraseKeepsOpcode(args1[0]);
      EraseKeepsOpcode(args2[0]);
    }
  }

  /** A call that passes the test has its first argument retyped to "C"; its
      object and its other arguments are returned as they were, unvisited. */
  lemma MatchRetypesFirstArgumentOnly(pool: seq<Constant>, stringNameIndex: int, line: int,
                                      methodIndex: int, objectref: Instruction, args: seq<Instruction>)
    requires IsStringIndexOfCall(pool, stringNameIndex, methodIndex, args)
    ensures var r := Retype(pool, stringNameIndex, Invoke(line, InvokeVirtual, methodIndex, objectref, args));
            r == Ok(Invoke(line, InvokeVirtual, methodIndex, objectref, [args[0].(signature := "C")] + args[1..]))
  {
  }

  /** Running the pass on its own output changes nothing. */
  ghost predicate Idempotent(pool: seq<Constant>, stringNameIndex: int, i: Instruction) {
    var r := Retype(pool, stringNameIndex, i);
    r.Ok? ==> Retype(pool, stringNameIndex, r.value) == r
  }

  ghost predicate SeqIdempotent(pool: seq<Constant>, stringNameIndex: int, s: seq<Instruction>) {
    var r := RetypeSeq(pool, stringNameIndex, s);
    r.Ok? ==> RetypeSeq(pool, stringNameIndex, r.value) == r
  }

  lemma {:induction false} RetypeIdempotent(pool: seq<Constant>, stringNameIndex: int, i: Instruction)
    ensures Idempotent(pool, stringNameIndex, i)
    decreases i
  {
    match i
    case Store(_, _, _, v) =>
      RetypeIdempotent(pool, stringNameIndex, v);
      OneChildIdempotent(pool, stringNameIndex, i, v);
    case Unary(_, _, x) =>
      RetypeIdempotent(pool, stringNameIndex, x);
      OneChildIdempotent(pool, stringNameIndex, i, x);
    case Binary(_, _, a, b) =>
      RetypeIdempotent(pool, stringNameIndex, a);
      RetypeIdempotent(pool, stringNameIndex, b);
      BinaryRetypeIdempotent(pool, stringNameIndex, i);
    case ArrayStore(_, a, _, _) =>
      RetypeIdempotent(pool, stringNameIndex, a);
      OneChildIdempotent(pool, stringNameIndex, i, a);
    case Inc(_, _, _, v) =>
      RetypeIdempotent(pool, stringNameIndex, v);
      OneChildIdempotent(pool, stringNameIndex, i, v);
    case Assert(_, t, m) =>
      RetypeIdempotent(pool, stringNameIndex, t);
      if m.Some? {
        RetypeIdempotent(pool, stringNameIndex, m.value);
      }
      AssertRetypeIdempotent(pool, stringNameIndex, i);
    case Invoke(_, _, _, o, args) =>
      RetypeIdempotent(pool, stringNameIndex, o);
      RetypeSeqIdempotent(pool, stringNameIndex, args);
      InvokeRetypeIdempotent(pool, stringNameIndex, i);
    case InvokeStatic(_, _, _, args) =>
      RetypeSeqIdempotent(pool, stringNameIndex, args);
      ListChildIdempotent(pool, stringNameIndex, i, args);
    case Operands(_, _, operands) =>
      RetypeSeqIdempotent(pool, stringNameIndex, operands);
      ListChildIdempotent(pool, stringNameIndex, i, operands);
    case InitArray(_, n, vs) =>
      RetypeIdempotent(pool, stringNameIndex, n);
      if vs.ListOf? {
        RetypeSeqIdempotent(pool, stringNameIndex, vs.items);
      }
      InitArrayRetypeIdempotent(pool, stringNameIndex, i);
    case _ =>
      UnvisitedOpcodesUnchanged(pool, stringNameIndex, i);
  }

  /** The cases of `RetypeIdempotent` with one visited child. */
  lemma OneChildIdempotent(pool: seq<Constant>, stringNameIndex: int, i: Instruction, child: Instruction)
    requires || (i.Store? && child == i.valueref) || (i.Unary? && child == i.operand)
             || (i.ArrayStore? && child == i.arrayref) || (i.Inc? && child == i.incremented)
    requires Idempotent(pool, stringNameIndex, child)
    ensures Idempotent(pool, stringNameIndex, i)
  {
  }

  /** The cases of `RetypeIdempotent` that visit one list of children. */
  lemma ListChildIdempotent(pool: seq<Constant>, stringNameIndex: int, i: Instruction, s: seq<Instruction>)
    requires (i.InvokeStatic? && s == i.args) || (i.Operands? && s == i.operands)
    requires SeqIdempotent(pool, stringNameIndex, s)
    ensures Idempotent(pool, stringNameIndex, i)
  {
  }

  lemma BinaryRetypeIdempotent(pool: seq<Constant>, stringNameIndex: int, i: Instruction)
    requires i.Binary? && Idempotent(pool, stringNameIndex, i.left) && Idempotent(pool, stringNameIndex, i.right)
    ensures Idempotent(pool, stringNameIndex, i)
  {
  }

  lemma AssertRetypeIdempotent(pool: seq<Constant>, stringNameIndex: int, i: Instruction)
    requires i.Assert? && Idempotent(pool, stringNameIndex, i.test)
    requires i.msg.Some? ==> Idempotent(pool, stringNameIndex, i.msg.value)
    ensures Idempotent(pool, stringNameIndex, i)
  {
  }

  lemma InitArrayRetypeIdempotent(pool: seq<Constant>, stringNameIndex: int, i: Instruction)
    requires i.InitArray? && Idempotent(pool, stringNameIndex, i.newArray)
    requires i.initValues.ListOf? ==> SeqIdempotent(pool, stringNameIndex, i.initValues.items)
    ensures Idempotent(pool, stringNameIndex, i)
  {
  }

  /** The call case of `RetypeIdempotent`: a matched call still matches after
      the rewrite, and its first argument is already "C". */
  lemma InvokeRetypeIdempotent(pool: seq<Constant>, stringNameIndex: int, i: Instruction)
    requires i.Invoke? && Idempotent(pool, stringNameIndex, i.objectref)
    requires SeqIdempotent(pool, stringNameIndex, i.args)
    ensures Idempotent(pool, stringNameIndex, i)
  {
    var r := Retype(pool, stringNameIndex, i);
    if r.Ok? {
      var args' := r.value.args;
      RetypeSeqKeepsShape(pool, stringNameIndex, i.args);
      TestIgnoresSignatures(pool, stringNameIndex, i.methodIndex, i.args, args');
      if i.kind == InvokeVirtual && StringIndexOfCall(pool, stringNameIndex, i.methodIndex, i.args) == Ok(true) {
        assert FirstArgumentAsChar(args') == args';
      }
    }
  }

  lemma {:induction false} RetypeSeqIdempotent(pool: seq<Constant>, stringNameIndex: int, s: seq<Instruction>)
    ensures SeqIdempotent(pool, stringNameIndex, s)
    decreases s
  {
    var r := RetypeSeq(pool, stringNameIndex, s);
    if r.Ok? && |s| > 0 {
      RetypeSeqIdempotent(pool, stringNameIndex, s[1..]);
      RetypeIdempotent(pool, stringNameIndex, s[0]);
      var t := r.value;
      assert t[0] == Retype(pool, stringNameIndex, s[0]).value;
      assert t[1..] == RetypeSeq(pool, stringNameIndex, s[1..]).value;
    }
  }

  /** `s.indexOf(98)` (BIPUSH 98) on a table whose slot 6 is
      `String.indexOf(I)I` becomes `s.indexOf('b')`. */
  lemma IndexOfByteConstantRetyped()
    ensures var pool := [Absent, Utf8("java/lang/String"), Class(1), Utf8("indexOf"), Utf8("(I)I"),
                         NameAndType(3, 4), Methodref(2, 5, Some(["I"]), Some("I"))];
            var call := Invoke(10, InvokeVirtual, 6, Load(10, 0, 1), [IConst(10, BipushPush, 98, "I")]);
            Retype(pool, 1, call) == Ok(Invoke(10, InvokeVirtual, 6, Load(10, 0, 1), [IConst(10, BipushPush, 98, "C")]))
  {
    var pool := [Absent, Utf8("java/lang/String"), Class(1), Utf8("indexOf"), Utf8("(I)I"),
                 NameAndType(3, 4), Methodref(2, 5, Some(["I"]), Some("I"))];
    var args := [IConst(10, BipushPush, 98, "I")];
    assert Utf8At(pool, 3) == Ok("indexOf");
    assert IsStringIndexOfCall(pool, 1, 6, args);
    MatchRetypesFirstArgumentOnly(pool, 1, 10, 6, Load(10, 0, 1), args);
    assert [args[0].(signature := "C")] + args[1..] == [IConst(10, BipushPush, 98, "C")];
  }

  /** The same call with a local variable as its argument is left alone. */
  lemma IndexOfLoadedArgumentKept()
    ensures var pool := [Absent, Utf8("java/lang/String"), Class(1), Utf8("indexOf"), Utf8("(I)I"),
                         NameAndType(3, 4), Methodref(2, 5, Some(["I"]), Some("I"))];
            var call := Invoke(10, InvokeVirtual, 6, Load(10, 0, 1), [Load(10, 0, 2)]);
            Retype(pool, 1, call) == Ok(call)
  {
    var pool := [Absent, Utf8("java/lang/String"), Class(1), Utf8("indexOf"), Utf8("(I)I"),
                 NameAndType(3, 4), Methodref(2, 5, Some(["I"]), Some("I"))];
    var args := [Load(10, 0, 2)];
    assert StringIndexOfCall(pool, 1, 6, args) == Ok(false);
    assert RetypeSeq(pool, 1, args[1..]) == Ok([]);
    assert Retype(pool, 1, args[0]) == Ok(args[0]);
    assert [args[0]] + [] == args;
  }

  /** Array stores visit their array only: the index and the value come back as
      they were, whatever calls they hold. */
  lemma ArrayStoreVisitsArrayOnly(pool: seq<Constant>, stringNameIndex: int, line: int,
                                  arrayref: Instruction, indexref: Instruction, valueref: Instruction)
    ensures var r := Retype(pool, stringNameIndex, ArrayStore(line, arrayref, indexref, valueref));
            && (r.Ok? <==> Retype(pool, stringNameIndex, arrayref).Ok?)
            && (r.Ok? ==> r.value == ArrayStore(line, Retype(pool, stringNameIndex, arrayref).value, indexref, valueref))
  {
  }

  /** Constants, loads, the other leaves, ARRAYLOAD, ternary operators and the
      opcodes the pass does not name come back unchanged, and never throw. */
  lemma UnvisitedOpcodesUnchanged(pool: seq<Constant>, stringNameIndex: int, i: Instruction)
    requires || i.Leaf? || i.IConst? || i.Load? || i.Other? || i.Ternary?
             || (i.Binary? && i.binary == ArrayLoad)
             || i.For? || i.TestList? || i.InfiniteLoop? || i.ForEach? || i.IfElse?
             || i.Wrapped? || i.Switch? || i.Try? || i.Synchronized?
    ensures Retype(pool, stringNameIndex, i) == Ok(i)
  {
  }
}
