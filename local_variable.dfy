/**
  One record of a method's local-variable table (section 4.7.13 of the Java
  Virtual Machine Specification): the variable in slot `index` is live over the
  code range [startPc, startPc + length). The decompiler widens that range as it
  finds uses, and orders records by (name, length, start, slot). Fields are Java
  `int`s: every sum and difference wraps at 32 bits.
*/
module LocalVariables {

  const Int32Modulus := 0x1_0000_0000

  predicate IsInt32(x: int) {
    -0x8000_0000 <= x < 0x8000_0000
  }

  /** A Java `int` result: `x` reduced into the 32-bit two's-complement range. */
  function Wrap32(x: int): (r: int)
    ensures IsInt32(r)
    ensures (r - x) % Int32Modulus == 0
    ensures IsInt32(x) ==> r == x
  {
    (x + 0x8000_0000) % Int32Modulus - 0x8000_0000
  }

  function Min(a: int, b: int): int {
    if a <= b then a else b
  }

  function Max(a: int, b: int): int {
    if a <= b then b else a
  }

  // -- updateRange ------------------------------------------------------------ //

  /** The range `updateRange(offset)` leaves, as (start, length): the range first
      grows down to `offset` if it starts after it, then up to `offset` if it
      ends at or before it. */
  function UpdatedRange(startPc: int, length: int, offset: int): (r: (int, int))
    ensures r.0 == Min(startPc, offset)
    ensures IsInt32(length) ==> IsInt32(r.1)
    ensures startPc <= offset < Wrap32(startPc + length) ==> r == (startPc, length)
  {
    var (start1, length1) :=
      if offset < startPc then (offset, Wrap32(length + Wrap32(startPc - offset))) else (startPc, length);
    if offset >= Wrap32(start1 + length1) then (start1, Wrap32(Wrap32(offset - start1) + 1))
    else (start1, length1)
  }

  /** Values of the size a class file can hold (code offsets and lengths are
      below 2^16), with room to spare: no sum below overflows. */
  predicate Fits(startPc: int, length: int, offset: int) {
    0 <= startPc < 0x4000_0000 && 0 <= length < 0x4000_0000 && 0 <= offset < 0x4000_0000
  }

  /** Without overflow, the new range is the smallest one holding both the old
      range and `offset`. */
  lemma UpdatedRangeIsSmallestCover(startPc: int, length: int, offset: int)
    requires Fits(startPc, length, offset)
    ensures var (start, len) := UpdatedRange(startPc, length, offset);
            && start == Min(startPc, offset)
            && start + len == Max(startPc + length, offset + 1)
  {
  }

  /** The new range contains `offset` and the whole old range. */
  lemma UpdatedRangeCoversAndWidens(startPc: int, length: int, offset: int)
    requires Fits(startPc, length, offset)
    ensures var (start, len) := UpdatedRange(startPc, length, offset);
            && start <= offset < start + len
            && start <= startPc && startPc + length <= start + len
  {
    UpdatedRangeIsSmallestCover(startPc, length, offset);
  }

  /** An offset already inside the range changes nothing. */
  lemma InsideRangeUnchanged(startPc: int, length: int, offset: int)
    requires startPc <= offset < startPc + length && IsInt32(startPc + length)
    ensures UpdatedRange(startPc, length, offset) == (startPc, length)
  {
  }

  /** So a second update with the same offset is a no-op. */
  lemma UpdateRangeIdempotent(startPc: int, length: int, offset: int)
    requires Fits(startPc, length, offset)
    ensures var (start, len) := UpdatedRange(startPc, length, offset);
            UpdatedRange(start, len, offset) == (start, len)
  {
    var (start, len) := UpdatedRange(startPc, length, offset);
    UpdatedRangeIsSmallestCover(startPc, length, offset);
    InsideRangeUnchanged(start, len, offset);
  }

  // -- compareTo --------------------------------------------------------------- //

  /** What `compareTo` looks at, in the order it looks. */
  datatype SortKey = SortKey(nameIndex: int, length: int, startPc: int, index: int)

  /** `compareTo` on two non-null records: the 32-bit difference of the first
      differing key. */
  function CompareKeys(a: SortKey, b: SortKey): (r: int)
    ensures IsInt32(r)
    ensures Int32Key(a) && Int32Key(b) ==> (r == 0 <==> a == b)
  {
    if a.nameIndex != b.nameIndex then Wrap32(a.nameIndex - b.nameIndex)
    else if a.length != b.length then Wrap32(a.length - b.length)
    else if a.startPc != b.startPc then Wrap32(a.startPc - b.startPc)
    else Wrap32(a.index - b.index)
  }

  /** Keys whose fields are Java `int`s, as every record's are. */
  predicate Int32Key(k: SortKey) {
    IsInt32(k.nameIndex) && IsInt32(k.length) && IsInt32(k.startPc) && IsInt32(k.index)
  }

  /** Lexicographic order on (nameIndex, length, startPc, index). */
  predicate LexLess(a: SortKey, b: SortKey) {
    || a.nameIndex < b.nameIndex
    || (a.nameIndex == b.nameIndex && a.length < b.length)
    || (a.nameIndex == b.nameIndex && a.length == b.length && a.startPc < b.startPc)
    || (a.nameIndex == b.nameIndex && a.length == b.length && a.startPc == b.startPc && a.index < b.index)
  }

  /** Keys whose differences cannot overflow. */
  predicate SmallKey(k: SortKey) {
    && 0 <= k.nameIndex < 0x4000_0000 && 0 <= k.length < 0x4000_0000
    && 0 <= k.startPc < 0x4000_0000 && 0 <= k.index < 0x4000_0000
  }

  /** Without overflow, the sign of `compareTo` is the lexicographic order. */
  lemma CompareKeysIsLexicographic(a: SortKey, b: SortKey)
    requires SmallKey(a) && SmallKey(b)
    ensures CompareKeys(a, b) < 0 <==> LexLess(a, b)
    ensures CompareKeys(a, b) == 0 <==> a == b
    ensures CompareKeys(a, b) > 0 <==> LexLess(b, a)
  {
  }

  /** Every record compares equal to itself. */
  lemma CompareKeysReflexive(a: SortKey)
    ensures CompareKeys(a, a) == 0
  {
  }

  /** Without overflow, swapping the records flips the sign. */
  lemma CompareKeysAntisymmetric(a: SortKey, b: SortKey)
    requires SmallKey(a) && SmallKey(b)
    ensures (CompareKeys(a, b) < 0 <==> CompareKeys(b, a) > 0)
    ensures (CompareKeys(a, b) == 0 <==> CompareKeys(b, a) == 0)
  {
    CompareKeysIsLexicographic(a, b);
    CompareKeysIsLexicographic(b, a);
  }

  /** With name indices far apart, the 32-bit difference overflows and the order
      flips: a record with a larger name index compares below one with -1. */
  lemma OverflowBreaksAntisymmetry()
    ensures var a := SortKey(0x7FFF_FFFF, 0, 0, 0);
            var b := SortKey(-1, 0, 0, 0);
            CompareKeys(a, b) < 0 && CompareKeys(b, a) < 0
  {
  }

  // -- The record ---------------------------------------------------------------- //

  class LocalVariable {
    var startPc: int
    var length: int
    var nameIndex: int
    var signatureIndex: int
    const index: int
    var exceptionOrReturnAddress: bool
    /** Bit field used to tell byte, char, short and int variables apart. */
    var typesBitField: int
    /** Used while generating local-variable declarations. */
    var declarationFlag: bool
    var finalFlag: bool
    var toBeRemoved: bool

    /** `LocalVariable(start_pc, length, nameIndex, signature_index, index)`. */
    constructor (startPc: int, length: int, nameIndex: int, signatureIndex: int, index: int)
      ensures this.startPc == startPc && this.length == length && this.nameIndex == nameIndex
      ensures this.signatureIndex == signatureIndex && this.index == index
      ensures !exceptionOrReturnAddress && !declarationFlag && typesBitField == 0
      ensures !finalFlag && !toBeRemoved
    {
      this.startPc, this.length, this.nameIndex := startPc, length, nameIndex;
      this.signatureIndex, this.index := signatureIndex, index;
      exceptionOrReturnAddress, declarationFlag, typesBitField := false, false, 0;
      finalFlag, toBeRemoved := false, false;
    }

    /** The form with a types bit set. */
    constructor WithTypes(startPc: int, length: int, nameIndex: int, signatureIndex: int, index: int,
                          typesBitSet: int)
      ensures this.startPc == startPc && this.length == length && this.nameIndex == nameIndex
      ensures this.signatureIndex == signatureIndex && this.index == index
      ensures !exceptionOrReturnAddress && !declarationFlag && typesBitField == typesBitSet
      ensures !finalFlag && !toBeRemoved
    {
      this.startPc, this.length, this.nameIndex := startPc, length, nameIndex;
      this.signatureIndex, this.index := signatureIndex, index;
      exceptionOrReturnAddress, declarationFlag, typesBitField := false, false, typesBitSet;
      finalFlag, toBeRemoved := false, false;
    }

    /** The form for an exception or return-address variable: such a variable is
        already declared. */
    constructor WithException(startPc: int, length: int, nameIndex: int, signatureIndex: int, index: int,
                              exception: bool)
      ensures this.startPc == startPc && this.length == length && this.nameIndex == nameIndex
      ensures this.signatureIndex == signatureIndex && this.index == index
      ensures exceptionOrReturnAddress == exception && declarationFlag == exception && typesBitField == 0
      ensures !finalFlag && !toBeRemoved
    {
      this.startPc, this.length, this.nameIndex := startPc, length, nameIndex;
      this.signatureIndex, this.index := signatureIndex, index;
      exceptionOrReturnAddress, declarationFlag, typesBitField := exception, exception, 0;
      finalFlag, toBeRemoved := false, false;
    }

    /** The full form the others delegate to. */
    constructor Full(startPc: int, length: int, nameIndex: int, signatureIndex: int, index: int,
                     exceptionOrReturnAddress: bool, typesBitField: int)
      ensures this.startPc == startPc && this.length == length && this.nameIndex == nameIndex
      ensures this.signatureIndex == signatureIndex && this.index == index
      ensures this.exceptionOrReturnAddress == exceptionOrReturnAddress
      ensures declarationFlag == exceptionOrReturnAddress && this.typesBitField == typesBitField
      ensures !finalFlag && !toBeRemoved
    {
      this.startPc, this.length, this.nameIndex := startPc, length, nameIndex;
      this.signatureIndex, this.index := signatureIndex, index;
      this.exceptionOrReturnAddress, declarationFlag := exceptionOrReturnAddress, exceptionOrReturnAddress;
      this.typesBitField := typesBitField;
      finalFlag, toBeRemoved := false, false;
    }

    /** `updateRange`: widens the live range to cover `offset`; no other field changes. */
    method UpdateRange(offset: int)
      modifies this`startPc, this`length
      ensures (startPc, length) == UpdatedRange(old(startPc), old(length), offset)
    {
      if offset < startPc {
        length := Wrap32(length + Wrap32(startPc - offset));
        startPc := offset;
      }
      if offset >= Wrap32(startPc + length) {
        length := Wrap32(Wrap32(offset - startPc) + 1);
      }
    }

    /** `updateSignatureIndex`: replaces the signature index only. */
    method UpdateSignatureIndex(signatureIndex: int)
      modifies this`signatureIndex
      ensures this.signatureIndex == signatureIndex
    {
      this.signatureIndex := signatureIndex;
    }

    predicate IsToBeRemoved()
      reads this
    {
      toBeRemoved
    }

    /** `setToBeRemoved`: the flag `isToBeRemoved` reports next. */
    method SetToBeRemoved(toBeRemoved: bool)
      modifies this`toBeRemoved
      ensures IsToBeRemoved() == toBeRemoved
    {
      this.toBeRemoved := toBeRemoved;
    }

    function Key(): SortKey
      reads this
    {
      SortKey(nameIndex, length, startPc, index)
    }

    /** `compareTo`: -1 against null, otherwise the key comparison. */
    function CompareTo(other: LocalVariable?): (r: int)
      reads this, other
      ensures other == null ==> r == -1
      ensures other != null && SmallKey(Key()) && SmallKey(other.Key()) ==>
                && (r < 0 <==> LexLess(Key(), other.Key()))
                && (r == 0 <==> Key() == other.Key())
    {
      if other == null then -1 else CompareKeys(Key(), other.Key())
    }
  }
}
