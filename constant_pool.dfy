/**
  The decompiler's constant pool: an append-only table of class-file constants,
  indexed as in section 4.4 of the Java Virtual Machine Specification (slot 0 is
  reserved and holds no constant). Utf8 and Class entries are found again through
  two reverse maps; NameAndType, Fieldref and Methodref entries by a backward
  linear scan that never looks at slot 0.
*/
module ConstantPools {
  import opened Wrappers

  /** One table entry. `Absent` stands for a null slot (slot 0, and the second
      slot of a long or double constant). */
  datatype Constant =
    | Absent
    | Utf8(value: string)
    | Class(nameIndex: int)
    | NameAndType(nameIndex: int, descriptorIndex: int)
    | Fieldref(classIndex: int, nameAndTypeIndex: int)
    | Methodref(classIndex: int, nameAndTypeIndex: int,
                parameterSignatures: Option<seq<string>>, returnedSignature: Option<string>)
    | OtherConstant(tag: int)

  /** The exceptions the pool's operations throw. */
  datatype PoolError =
    | NullString          // IllegalArgumentException "Constant string is null"
    | LBracketString      // IllegalArgumentException "Constant string starts with L["
    | IndexOutOfBounds    // List.get outside the table
    | ClassCast           // the entry is of another kind than the cast expects
    | NullPointer         // the entry is a null slot

  // Well-known names the constructor appends (their text is that of the JVM specification).
  const InstanceConstructor := "<init>"
  const ClassConstructor := "<clinit>"
  const InternalDeprecatedSignature := "Ljava/lang/Deprecated;"
  const ToStringMethodName := "toString"
  const ValueOfMethodName := "valueOf"
  const AppendMethodName := "append"
  const JavaLangObject := "java/lang/Object"
  const InternalObjectSignature := "Ljava/lang/Object;"
  const JavaLangString := "java/lang/String"
  const JavaLangStringBuffer := "java/lang/StringBuffer"
  const JavaLangStringBuilder := "java/lang/StringBuilder"
  const ThisLocalVariableName := "this"
  const AnnotationDefaultAttributeName := "AnnotationDefault"
  const CodeAttributeName := "Code"
  const ConstantValueAttributeName := "ConstantValue"
  const DeprecatedAttributeName := "Deprecated"
  const EnclosingMethodAttributeName := "EnclosingMethod"
  const ExceptionsAttributeName := "Exceptions"
  const InnerClassesAttributeName := "InnerClasses"
  const LineNumberTableAttributeName := "LineNumberTable"
  const LocalVariableTableAttributeName := "LocalVariableTable"
  const LocalVariableTypeTableAttributeName := "LocalVariableTypeTable"
  const RuntimeInvisibleAnnotationsAttributeName := "RuntimeInvisibleAnnotations"
  const RuntimeVisibleAnnotationsAttributeName := "RuntimeVisibleAnnotations"
  const RuntimeInvisibleParameterAnnotationsAttributeName := "RuntimeInvisibleParameterAnnotations"
  const RuntimeVisibleParameterAnnotationsAttributeName := "RuntimeVisibleParameterAnnotations"
  const SignatureAttributeName := "Signature"
  const SourceFileAttributeName := "SourceFile"
  const SyntheticAttributeName := "Synthetic"

  /** The names appended by the constructor, in the order it appends them. */
  const WellKnownNames: seq<string> := [
    InstanceConstructor, ClassConstructor, InternalDeprecatedSignature,
    ToStringMethodName, ValueOfMethodName, AppendMethodName,
    JavaLangObject, InternalObjectSignature, JavaLangString,
    JavaLangStringBuffer, JavaLangStringBuilder, ThisLocalVariableName,
    AnnotationDefaultAttributeName, CodeAttributeName, ConstantValueAttributeName,
    DeprecatedAttributeName, EnclosingMethodAttributeName, ExceptionsAttributeName,
    InnerClassesAttributeName, LineNumberTableAttributeName, LocalVariableTableAttributeName,
    LocalVariableTypeTableAttributeName, RuntimeInvisibleAnnotationsAttributeName,
    RuntimeVisibleAnnotationsAttributeName, RuntimeInvisibleParameterAnnotationsAttributeName,
    RuntimeVisibleParameterAnnotationsAttributeName, SignatureAttributeName,
    SourceFileAttributeName, SyntheticAttributeName]

  /** Where java/lang/Object and java/lang/String sit in `WellKnownNames`. */
  const ObjectPosition := 6
  const StringPosition := 8

  predicate StartsWithLBracket(s: string) {
    |s| >= 2 && s[0] == 'L' && s[1] == '['
  }

  /** `k` is the last slot of `cs` that holds `c`. */
  ghost predicate IsLast(cs: seq<Constant>, k: int, c: Constant) {
    0 <= k < |cs| && cs[k] == c && c !in cs[k + 1..]
  }

  // -- Reads (get, getConstantUtf8, getConstantClassName) ------------------ //

  /** `get(i)`: the entry at `i`, or the exception List.get throws. */
  function At(cs: seq<Constant>, i: int): (r: Result<Constant, PoolError>)
    ensures r.Ok? <==> 0 <= i < |cs|
    ensures r.Ok? ==> r.value == cs[i]
    ensures r.Err? ==> r.error == IndexOutOfBounds
  {
    if 0 <= i < |cs| then Ok(cs[i]) else Err(IndexOutOfBounds)
  }

  /** `getConstantUtf8(i)`: the string of the Utf8 entry at `i`; the cast fails on
      any other kind, and a null slot fails on `getValue`. */
  function Utf8At(cs: seq<Constant>, i: int): (r: Result<string, PoolError>)
    ensures r.Ok? <==> 0 <= i < |cs| && cs[i].Utf8?
    ensures r.Ok? ==> cs[i] == Utf8(r.value)
    ensures r.Err? && 0 <= i < |cs| ==> r.error == (if cs[i].Absent? then NullPointer else ClassCast)
  {
    if !(0 <= i < |cs|) then Err(IndexOutOfBounds)
    else match cs[i]
      case Utf8(s) => Ok(s)
      case Absent => Err(NullPointer)
      case _ => Err(ClassCast)
  }

  /** `getConstantClassName(i)`: the Class entry at `i`, then the Utf8 entry it names. */
  function ClassNameAt(cs: seq<Constant>, i: int): (r: Result<string, PoolError>)
    ensures r.Ok? <==> 0 <= i < |cs| && cs[i].Class? && Utf8At(cs, cs[i].nameIndex).Ok?
    ensures r.Ok? ==> cs[cs[i].nameIndex] == Utf8(r.value)
  {
    if !(0 <= i < |cs|) then Err(IndexOutOfBounds)
    else match cs[i]
      case Class(n) => Utf8At(cs, n)
      case Absent => Err(NullPointer)
      case _ => Err(ClassCast)
  }

  /** The entry kinds the typed getters cast to. */
  datatype ConstantKind = Utf8Kind | ClassKind | NameAndTypeKind | FieldrefKind | MethodrefKind

  predicate OfKind(c: Constant, kind: ConstantKind) {
    match kind
    case Utf8Kind => c.Utf8?
    case ClassKind => c.Class?
    case NameAndTypeKind => c.NameAndType?
    case FieldrefKind => c.Fieldref?
    case MethodrefKind => c.Methodref?
  }

  /** `getConstantClass`, `getConstantNameAndType`, `getConstantFieldref`,
      `getConstantMethodref`: the entry at `i` cast to `kind`. A cast of a null
      slot succeeds and yields null (`None`); the caller fails only when it
      dereferences it. */
  function CastAt(cs: seq<Constant>, i: int, kind: ConstantKind): (r: Result<Option<Constant>, PoolError>)
    ensures r.Ok? <==> 0 <= i < |cs| && (cs[i].Absent? || OfKind(cs[i], kind))
    ensures r == Ok(None) <==> 0 <= i < |cs| && cs[i].Absent?
    ensures r.Ok? && r.value.Some? ==> r.value.value == cs[i] && OfKind(cs[i], kind)
    ensures r.Err? ==> r.error == (if 0 <= i < |cs| then ClassCast else IndexOutOfBounds)
  {
    if !(0 <= i < |cs|) then Err(IndexOutOfBounds)
    else if cs[i].Absent? then Ok(None)
    else if OfKind(cs[i], kind) then Ok(Some(cs[i]))
    else Err(ClassCast)
  }

  // -- The backward scan of the NameAndType / Fieldref / Methodref adds ---- //

  /** What an add compares: Methodref entries are compared on their two indices
      only, never on their signatures. */
  datatype RefKey =
    | NameAndTypeKey(nameIndex: int, descriptorIndex: int)
    | FieldrefKey(classIndex: int, nameAndTypeIndex: int)
    | MethodrefKey(classIndex: int, nameAndTypeIndex: int)

  predicate Matches(c: Constant, key: RefKey) {
    match key
    case NameAndTypeKey(n, d) => c.NameAndType? && c.nameIndex == n && c.descriptorIndex == d
    case FieldrefKey(k, nt) => c.Fieldref? && c.classIndex == k && c.nameAndTypeIndex == nt
    case MethodrefKey(k, nt) => c.Methodref? && c.classIndex == k && c.nameAndTypeIndex == nt
  }

  /** The slot `while (--index > 0)` stops at when started from `hi`: the highest
      slot below `hi`, other than 0, whose entry matches; 0 when there is none. */
  function LastMatch(cs: seq<Constant>, key: RefKey, hi: int): (r: nat)
    requires hi <= |cs|
    ensures r == 0 || (r < hi && Matches(cs[r], key))
    ensures forall k :: r < k < hi && 0 < k ==> !Matches(cs[k], key)
    decreases hi
  {
    if hi <= 1 then 0
    else if Matches(cs[hi - 1], key) then hi - 1
    else LastMatch(cs, key, hi - 1)
  }

  /** Appending an entry of the searched kind makes the next scan find it, as long
      as the table already has its reserved slot 0. */
  lemma {:induction false} LastMatchAfterAppend(cs: seq<Constant>, key: RefKey, c: Constant)
    requires |cs| > 0 && Matches(c, key)
    ensures LastMatch(cs + [c], key, |cs| + 1) == |cs|
  {
  }

  /** On a table without slot 0, the appended entry sits in slot 0, which the scan
      never examines: a second add of the same pair appends a duplicate. */
  lemma EmptyTableScanMissesSlotZero(key: RefKey, c: Constant)
    requires Matches(c, key)
    ensures LastMatch([c], key, 1) == 0
  {
  }

  /** No well-known name is refused by `addConstantUtf8`. */
  lemma WellKnownNamesAllowed()
    ensures forall t :: 0 <= t < |WellKnownNames| ==> !StartsWithLBracket(WellKnownNames[t])
  {
  }

  /** The reverse maps agree with the table: each key maps to the last slot
      holding that Utf8 string or that Class entry, and every such entry has a key. */
  ghost predicate MapsAgree(cs: seq<Constant>, utf8ToIndex: map<string, nat>, classToIndex: map<int, nat>) {
    && (forall s :: s in utf8ToIndex ==> IsLast(cs, utf8ToIndex[s], Utf8(s)))
    && (forall s :: Utf8(s) in cs ==> s in utf8ToIndex)
    && (forall n :: n in classToIndex ==> IsLast(cs, classToIndex[n], Class(n)))
    && (forall n :: Class(n) in cs ==> n in classToIndex)
  }

  /** Appending an entry and pointing its key (if it has one) at the new slot keeps
      the maps in agreement; this is every step of the constructor's copy loop and
      of every add. */
  lemma AppendKeepsMapsAgree(cs: seq<Constant>, u: map<string, nat>, m: map<int, nat>, x: Constant)
    requires MapsAgree(cs, u, m)
    ensures MapsAgree(cs + [x],
                      if x.Utf8? then u[x.value := |cs|] else u,
                      if x.Class? then m[x.nameIndex := |cs|] else m)
  {
    var cs' := cs + [x];
    var u' := if x.Utf8? then u[x.value := |cs|] else u;
    var m' := if x.Class? then m[x.nameIndex := |cs|] else m;
    forall s | s in u' ensures IsLast(cs', u'[s], Utf8(s)) {
      if !(x.Utf8? && s == x.value) {
        assert IsLast(cs, u[s], Utf8(s));
      }
    }
    forall n | n in m' ensures IsLast(cs', m'[n], Class(n)) {
      if !(x.Class? && n == x.nameIndex) {
        assert IsLast(cs, m[n], Class(n));
      }
    }
  }

  /** The entry `s` already has a slot exactly when its key is in the map. */
  lemma Utf8KeyedIffPresent(cs: seq<Constant>, u: map<string, nat>, m: map<int, nat>, s: string)
    requires MapsAgree(cs, u, m)
    ensures s in u <==> Utf8(s) in cs
  {
    if Utf8(s) in cs {
      var k :| 0 <= k < |cs| && cs[k] == Utf8(s);
      assert cs[k].Utf8?;
    }
  }

  lemma ClassKeyedIffPresent(cs: seq<Constant>, u: map<string, nat>, m: map<int, nat>, n: int)
    requires MapsAgree(cs, u, m)
    ensures n in m <==> Class(n) in cs
  {
    if Class(n) in cs {
      var k :| 0 <= k < |cs| && cs[k] == Class(n);
      assert cs[k].Class?;
    }
  }

  /** `after` keeps every slot of `before`: the table only grew. */
  ghost predicate Extends(before: seq<Constant>, after: seq<Constant>) {
    |before| <= |after| && forall k :: 0 <= k < |before| ==> after[k] == before[k]
  }

  /** Each `indices[t]` is a slot of `cs` holding the Utf8 entry `names[t]`. */
  ghost predicate Records(cs: seq<Constant>, indices: seq<nat>, names: seq<string>) {
    |indices| == |names| && forall t :: 0 <= t < |names| ==> indices[t] < |cs| && cs[indices[t]] == Utf8(names[t])
  }

  lemma ExtendsTransitive(a: seq<Constant>, b: seq<Constant>, c: seq<Constant>)
    requires Extends(a, b) && Extends(b, c)
    ensures Extends(a, c)
  {
  }

  /** Recorded slots stay recorded while the table grows. */
  lemma RecordsKept(cs1: seq<Constant>, cs2: seq<Constant>, indices: seq<nat>, names: seq<string>)
    requires Records(cs1, indices, names) && Extends(cs1, cs2)
    ensures Records(cs2, indices, names)
  {
  }

  /** Two runs of recorded slots join into one. */
  lemma RecordsJoin(cs: seq<Constant>, i1: seq<nat>, n1: seq<string>, i2: seq<nat>, n2: seq<string>)
    requires Records(cs, i1, n1) && Records(cs, i2, n2)
    ensures Records(cs, i1 + i2, n1 + n2)
  {
    forall t | 0 <= t < |n1 + n2|
      ensures (i1 + i2)[t] < |cs| && cs[(i1 + i2)[t]] == Utf8((n1 + n2)[t])
    {
      if t >= |n1| {
        assert (i1 + i2)[t] == i2[t - |n1|] && (n1 + n2)[t] == n2[t - |n1|];
      }
    }
  }

  lemma SplitJoins(names: seq<string>, k: nat)
    requires k <= |names|
    ensures names[..k] + names[k..] == names
  {
  }

  lemma ExtendsIsPrefix(before: seq<Constant>, after: seq<Constant>)
    requires Extends(before, after)
    ensures before <= after
  {
    assert after[..|before|] == before;
  }

  lemma PrefixGrows(names: seq<string>, j: nat)
    requires j < |names|
    ensures names[..j] + [names[j]] == names[..j + 1]
  {
  }

  class ConstantPool {
    var constants: seq<Constant>
    var utf8ToIndex: map<string, nat>
    var classToIndex: map<int, nat>

    // The slots the constructor records (one final field per name in the source):
    // the Utf8 slot of each of `WellKnownNames`, in order, and the Class slot of
    // java/lang/Object.
    var wellKnownNameIndices: seq<nat>
    var objectClassIndex: nat

    ghost predicate Valid()
      reads this`constants, this`utf8ToIndex, this`classToIndex
    {
      MapsAgree(constants, utf8ToIndex, classToIndex)
    }

    /** Every recorded index names the entry it was recorded for. */
    ghost predicate WellKnownRecorded()
      reads this`constants, this`wellKnownNameIndices, this`objectClassIndex
    {
      && |wellKnownNameIndices| == |WellKnownNames|
      && (forall t :: 0 <= t < |WellKnownNames| ==>
            wellKnownNameIndices[t] < |constants| && constants[wellKnownNameIndices[t]] == Utf8(WellKnownNames[t]))
      && objectClassIndex < |constants|
      && constants[objectClassIndex] == Class(wellKnownNameIndices[ObjectPosition])
    }

    /** Copies the decoded constants slot for slot, then appends the well-known
        names (and, right after java/lang/Object, its Class entry) that are not
        there yet, recording their slots. The source's straight-line run of 29
        adds is issued by loops over `WellKnownNames`: the same adds in the same
        order, so the same slots. */
    constructor (input: seq<Constant>)
      ensures Valid() && WellKnownRecorded()
      ensures |constants| > 0
      ensures input <= constants
    {
      new;
      CopyConstants(input);
      WellKnownNamesAllowed();
      var indices, objectIndex := AddWellKnownEntries(WellKnownNames, ObjectPosition);
      ExtendsIsPrefix(input, constants);
      wellKnownNameIndices, objectClassIndex := indices, objectIndex;
    }

    /** The constructor's copy loop: every decoded constant, null slots included,
        goes to the same slot, and Utf8 and Class entries are keyed to their last slot. */
    method CopyConstants(input: seq<Constant>)
      modifies this`constants, this`utf8ToIndex, this`classToIndex
      ensures Valid() && constants == input
    {
      constants := [];
      utf8ToIndex := map[];
      classToIndex := map[];
      for i := 0 to |input|
        invariant constants == input[..i]
        invariant Valid()
      {
        var constant := input[i];
        var index := |constants|;
        AppendKeepsMapsAgree(constants, utf8ToIndex, classToIndex, constant);
        constants := constants + [constant];
        if constant.Utf8? {
          utf8ToIndex := utf8ToIndex[constant.value := index];
        }
        if constant.Class? {
          classToIndex := classToIndex[constant.nameIndex := index];
        }
      }
    }

    /** The run of adds at the end of the constructor: `names` up to and including
        `names[classAfter]`, the Class entry naming that one, then the remaining names. */
    method AddWellKnownEntries(names: seq<string>, classAfter: nat) returns (indices: seq<nat>, objectIndex: nat)
      requires Valid() && classAfter < |names|
      requires forall t :: 0 <= t < |names| ==> !StartsWithLBracket(names[t])
      modifies this`constants, this`utf8ToIndex, this`classToIndex
      ensures Valid() && Extends(old(constants), constants) && |constants| > 0
      ensures Records(constants, indices, names)
      ensures objectIndex < |constants| && constants[objectIndex] == Class(indices[classAfter])
    {
      ghost var start := constants;
      var first := AddNames(names[..classAfter + 1]);
      ghost var afterFirst := constants;
      objectIndex := AddObjectClass(first[classAfter]);
      ghost var afterClass := constants;
      RecordsKept(afterFirst, afterClass, first, names[..classAfter + 1]);
      ExtendsTransitive(start, afterFirst, afterClass);
      var rest := [];
      if classAfter + 1 < |names| {
        rest := AddNames(names[classAfter + 1..]);
      }
      RecordsKept(afterClass, constants, first, names[..classAfter + 1]);
      ExtendsTransitive(start, afterClass, constants);
      RecordsJoin(constants, first, names[..classAfter + 1], rest, names[classAfter + 1..]);
      SplitJoins(names, classAfter + 1);
      indices := first + rest;
    }

    /** Adds each name in turn, recording the slots. */
    method AddNames(names: seq<string>) returns (indices: seq<nat>)
      requires Valid() && |names| > 0
      requires forall t :: 0 <= t < |names| ==> !StartsWithLBracket(names[t])
      modifies this`constants, this`utf8ToIndex
      ensures Valid() && Extends(old(constants), constants) && |constants| > 0
      ensures Records(constants, indices, names)
    {
      ghost var start := constants;
      indices := [];
      for j := 0 to |names|
        invariant Valid() && Extends(start, constants)
        invariant Records(constants, indices, names[..j])
        invariant j > 0 ==> |constants| > 0
      {
        ghost var before := constants;
        var index := AddWellKnownName(names[j]);
        ExtendsTransitive(start, before, constants);
        RecordsKept(before, constants, indices, names[..j]);
        RecordsJoin(constants, indices, names[..j], [index], [names[j]]);
        PrefixGrows(names, j);
        indices := indices + [index];
      }
      assert names[..|names|] == names;
    }

    /** One add of the run, seen from the run: the table only grows, and the
        returned slot holds the name. */
    method AddWellKnownName(name: string) returns (index: nat)
      requires Valid() && !StartsWithLBracket(name)
      modifies this`constants, this`utf8ToIndex
      ensures Valid() && Extends(old(constants), constants)
      ensures index < |constants| && constants[index] == Utf8(name)
    {
      var r := AddConstantUtf8(Some(name));
      index := r.value;
    }

    /** The Class entry for java/lang/Object, added right after its name. */
    method AddObjectClass(nameIndex: nat) returns (index: nat)
      requires Valid() && nameIndex < |constants| && constants[nameIndex].Utf8?
      modifies this`constants, this`classToIndex
      ensures Valid() && Extends(old(constants), constants)
      ensures index < |constants| && constants[index] == Class(nameIndex)
    {
      var r := AddConstantClass(nameIndex);
      index := r.value;
    }

    /** `addConstantUtf8`: rejects null and "L[..." strings; returns the slot the
        string already has, or appends it. */
    method AddConstantUtf8(s: Option<string>) returns (r: Result<nat, PoolError>)
      requires Valid()
      modifies this`constants, this`utf8ToIndex
      ensures Valid()
      ensures s.None? ==> r == Err(NullString)
      ensures s.Some? && StartsWithLBracket(s.value) ==> r == Err(LBracketString)
      ensures r.Err? ==> constants == old(constants) && utf8ToIndex == old(utf8ToIndex)
      ensures r.Ok? <==> s.Some? && !StartsWithLBracket(s.value)
      ensures r.Ok? ==> Utf8At(constants, r.value) == Ok(s.value)
      ensures r.Ok? && Utf8(s.value) in old(constants) ==>
                IsLast(old(constants), r.value, Utf8(s.value)) &&
                constants == old(constants) && utf8ToIndex == old(utf8ToIndex)
      ensures r.Ok? && Utf8(s.value) !in old(constants) ==>
                r.value == |old(constants)| &&
                constants == old(constants) + [Utf8(s.value)] &&
                utf8ToIndex == old(utf8ToIndex)[s.value := r.value]
    {
      if s.None? {
        return Err(NullString);
      }
      var str := s.value;
      if StartsWithLBracket(str) {
        return Err(LBracketString);
      }
      if str in utf8ToIndex {
        return Ok(utf8ToIndex[str]);
      }
      Utf8KeyedIffPresent(constants, utf8ToIndex, classToIndex, str);
      AppendKeepsMapsAgree(constants, utf8ToIndex, classToIndex, Utf8(str));
      var index := |constants|;
      constants := constants + [Utf8(str)];
      utf8ToIndex := utf8ToIndex[str := index];
      return Ok(index);
    }

    /** `addConstantClass`: reads the name (which throws unless `nameIndex` is a
        Utf8 slot; a malformed name is only logged), then returns the slot of the
        Class entry for `nameIndex`, appending one if there is none. */
    method AddConstantClass(nameIndex: int) returns (r: Result<nat, PoolError>)
      requires Valid()
      modifies this`constants, this`classToIndex
      ensures Valid()
      ensures r.Err? <==> Utf8At(old(constants), nameIndex).Err?
      ensures r.Err? ==> r.error == Utf8At(old(constants), nameIndex).error &&
                         constants == old(constants) && classToIndex == old(classToIndex)
      ensures r.Ok? ==> r.value < |constants| && constants[r.value] == Class(nameIndex)
      ensures r.Ok? && Class(nameIndex) in old(constants) ==>
                IsLast(old(constants), r.value, Class(nameIndex)) &&
                constants == old(constants) && classToIndex == old(classToIndex)
      ensures r.Ok? && Class(nameIndex) !in old(constants) ==>
                r.value == |old(constants)| &&
                constants == old(constants) + [Class(nameIndex)] &&
                classToIndex == old(classToIndex)[nameIndex := r.value]
    {
      var internalName := Utf8At(constants, nameIndex);
      if internalName.Err? {
        return Err(internalName.error);
      }
      // An empty name or one ending in ';' is reported on the error stream only.
      if nameIndex in classToIndex {
        return Ok(classToIndex[nameIndex]);
      }
      ClassKeyedIffPresent(constants, utf8ToIndex, classToIndex, nameIndex);
      AppendKeepsMapsAgree(constants, utf8ToIndex, classToIndex, Class(nameIndex));
      var index := |constants|;
      constants := constants + [Class(nameIndex)];
      classToIndex := classToIndex[nameIndex := index];
      return Ok(index);
    }

    /** The loop `while (--index > 0)` shared by the three scanning adds. */
    method ScanBackwards(key: RefKey) returns (index: nat)
      ensures index == LastMatch(constants, key, |constants|)
    {
      var k := |constants| - 1;
      while k > 0
        invariant k < |constants|
        invariant LastMatch(constants, key, |constants|) == LastMatch(constants, key, k + 1)
      {
        if Matches(constants[k], key) {
          return k;
        }
        k := k - 1;
      }
      return 0;
    }

    /** `addConstantNameAndType`: the highest slot holding the same pair, or a new one. */
    method AddConstantNameAndType(nameIndex: int, descriptorIndex: int) returns (index: nat)
      requires Valid()
      modifies this`constants
      ensures Valid()
      ensures var found := LastMatch(old(constants), NameAndTypeKey(nameIndex, descriptorIndex), |old(constants)|);
        if found > 0 then index == found && constants == old(constants)
        else index == |old(constants)| && constants == old(constants) + [NameAndType(nameIndex, descriptorIndex)]
    {
      index := ScanBackwards(NameAndTypeKey(nameIndex, descriptorIndex));
      if index == 0 {
        index := |constants|;
        AppendKeepsMapsAgree(constants, utf8ToIndex, classToIndex, NameAndType(nameIndex, descriptorIndex));
        constants := constants + [NameAndType(nameIndex, descriptorIndex)];
      }
    }

    /** `addConstantFieldref`: the highest slot holding the same pair, or a new one. */
    method AddConstantFieldref(classIndex: int, nameAndTypeIndex: int) returns (index: nat)
      requires Valid()
      modifies this`constants
      ensures Valid()
      ensures var found := LastMatch(old(constants), FieldrefKey(classIndex, nameAndTypeIndex), |old(constants)|);
        if found > 0 then index == found && constants == old(constants)
        else index == |old(constants)| && constants == old(constants) + [Fieldref(classIndex, nameAndTypeIndex)]
    {
      index := ScanBackwards(FieldrefKey(classIndex, nameAndTypeIndex));
      if index == 0 {
        index := |constants|;
        AppendKeepsMapsAgree(constants, utf8ToIndex, classToIndex, Fieldref(classIndex, nameAndTypeIndex));
        constants := constants + [Fieldref(classIndex, nameAndTypeIndex)];
      }
    }

    /** `addConstantMethodref`: dedup compares only the two indices, so an
        existing entry is returned whatever signatures it carries. The two-argument
        overload is the call with both signatures `None`. */
    method AddConstantMethodref(classIndex: int, nameAndTypeIndex: int,
                                parameterSignatures: Option<seq<string>>, returnedSignature: Option<string>)
      returns (index: nat)
      requires Valid()
      modifies this`constants
      ensures Valid()
      ensures var found := LastMatch(old(constants), MethodrefKey(classIndex, nameAndTypeIndex), |old(constants)|);
        if found > 0 then index == found && constants == old(constants)
        else index == |old(constants)| &&
             constants == old(constants) + [Methodref(classIndex, nameAndTypeIndex, parameterSignatures, returnedSignature)]
    {
      index := ScanBackwards(MethodrefKey(classIndex, nameAndTypeIndex));
      if index == 0 {
        var c := Methodref(classIndex, nameAndTypeIndex, parameterSignatures, returnedSignature);
        index := |constants|;
        AppendKeepsMapsAgree(constants, utf8ToIndex, classToIndex, c);
        constants := constants + [c];
      }
    }
  }

  /** Adding the same NameAndType pair twice yields the same slot once the table
      has its slot 0 (as every constructed pool has). */
  method AddConstantNameAndTypeTwice(pool: ConstantPool, nameIndex: int, descriptorIndex: int)
    returns (first: nat, second: nat)
    requires pool.Valid() && |pool.constants| > 0
    modifies pool
    ensures pool.Valid()
    ensures first == second && 0 < first < |pool.constants|
    ensures pool.constants[first] == NameAndType(nameIndex, descriptorIndex)
  {
    first := pool.AddConstantNameAndType(nameIndex, descriptorIndex);
    var key := NameAndTypeKey(nameIndex, descriptorIndex);
    if first == |old(pool.constants)| {
      LastMatchAfterAppend(old(pool.constants), key, NameAndType(nameIndex, descriptorIndex));
    }
    second := pool.AddConstantNameAndType(nameIndex, descriptorIndex);
  }

  /** Adding the same string twice yields the same slot, which reads back the string. */
  method AddConstantUtf8Twice(pool: ConstantPool, s: string) returns (first: nat, second: nat)
    requires pool.Valid() && !StartsWithLBracket(s)
    modifies pool
    ensures pool.Valid()
    ensures first == second && Utf8At(pool.constants, first) == Ok(s)
  {
    var r1 := pool.AddConstantUtf8(Some(s));
    var sizeAfterFirst := |pool.constants|;
    var r2 := pool.AddConstantUtf8(Some(s));
    assert pool.constants[r1.value] == Utf8(s);
    first, second := r1.value, r2.value;
    assert |pool.constants| == sizeAfterFirst;
  }
}
