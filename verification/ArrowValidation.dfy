/**
 The structural checks that `ArrowSchema::importFromC()` and `ArrowChunk::importFromC()`
 make, and what they are worth to the normaliser.
 */
module ArrowValidation {
  import opened Wrappers
  import Bitmaps
  import Integers
  import opened ArrowData
  import opened ArrowNormalize
  import ArrowMetadata

  const MAX_DEPTH := 128
  const MAX_CHILDREN := 65536
  const MAX_BUFFERS := 65536

  /** A non-null children pointer points at the declared number of children, at every level. */
  ghost predicate SchemaPointers(s: Schema) {
    s.Schema? ==>
      && (s.hasChildren && s.nChildren >= 0 ==> |s.children| == s.nChildren)
      && (!s.hasChildren ==> s.children == [])
      && (forall k :: 0 <= k < |s.children| ==> SchemaPointers(s.children[k]))
      && SchemaPointers(s.dictionary)
  }

  /** The same for arrays, whose validity bitmaps also cover their rows. */
  ghost predicate ArrayPointers(a: ArrowArray, s: Schema) {
    a.ArrowArray? && s.Schema? && s.format.Some? ==>
      && (a.hasBuffers && a.nBuffers >= 0 ==> |a.buffers| == a.nBuffers)
      && (!a.hasBuffers ==> a.buffers == [])
      && (a.hasChildren && a.nChildren >= 0 ==> |a.children| == a.nChildren)
      && (!a.hasChildren ==> a.children == [])
      && (Validity(a, s).Some? && a.offset >= 0 && a.length >= 0 ==>
            Bitmaps.BytesFor(a.offset + a.length) <= |Validity(a, s).value|)
      && (forall k :: 0 <= k < |a.children| && k < |s.children| ==> ArrayPointers(a.children[k], s.children[k]))
      && ArrayPointers(a.dictionary, s.dictionary)
  }

  /** `validate_schema` on a non-null schema. */
  ghost predicate ValidateSchema(s: Schema, depth: nat): (ok: bool)
    requires s.Schema? && SchemaPointers(s)
    ensures ok ==> SchemaShape(s)
    decreases s
  {
    if depth > MAX_DEPTH || s.released || s.format.None? || s.nChildren < 0 || s.nChildren > MAX_CHILDREN ||
       (s.nChildren != 0 && !s.hasChildren) then
      false
    else if s.metadata.Some? && ArrowMetadata.Extent(s.metadata.value).Failure? then
      false
    else
      && (forall k :: 0 <= k < s.nChildren ==> s.children[k].Schema? && ValidateSchema(s.children[k], depth + 1))
      && (s.dictionary.Schema? ==> ValidateSchema(s.dictionary, depth + 1))
  }

  /** `validate_array` on a non-null array, for a schema that was validated first. */
  ghost predicate ValidateArray(a: ArrowArray, s: Schema, depth: nat)
    requires a.ArrowArray? && SchemaShape(s) && ArrayPointers(a, s)
    decreases a
  {
    if depth > MAX_DEPTH || a.released || a.length < 0 || a.offset < 0 || a.nullCount < -1 ||
       a.nullCount > a.length || a.nBuffers < 0 || a.nBuffers > MAX_BUFFERS ||
       (a.nBuffers != 0 && !a.hasBuffers) || a.nChildren != s.nChildren ||
       (a.nChildren != 0 && !a.hasChildren) ||
       a.dictionary.ArrowArray? != s.dictionary.Schema? then
      false
    else if a.offset > Integers.INT64_MAX - a.length then
      false
    else if IsStruct(s) && a.nBuffers != 1 then
      false
    else if IsStruct(s) && a.nullCount > 0 && a.buffers[0].None? then
      false
    else
      && (forall k :: 0 <= k < a.nChildren ==>
            && a.children[k].ArrowArray?
            && (IsStruct(s) ==> a.children[k].length >= a.offset + a.length)
            && ValidateArray(a.children[k], s.children[k], depth + 1))
      && (a.dictionary.ArrowArray? ==> ValidateArray(a.dictionary, s.dictionary, depth + 1))
  }

  lemma {:induction false} ValidArrayIsAllocated(a: ArrowArray, s: Schema, depth: nat)
    requires a.ArrowArray? && SchemaShape(s) && ArrayPointers(a, s) && ValidateArray(a, s, depth)
    ensures Allocated(a, s)
    decreases a
  {
    forall k | 0 <= k < |a.children| ensures Allocated(a.children[k], s.children[k]) {
      ValidArrayIsAllocated(a.children[k], s.children[k], depth + 1);
    }
    if a.dictionary.ArrowArray? {
      ValidArrayIsAllocated(a.dictionary, s.dictionary, depth + 1);
    }
  }

  lemma {:induction false} ValidSliceFits(a: ArrowArray, s: Schema, depth: nat, inherited: nat, length: nat)
    requires a.ArrowArray? && SchemaShape(s) && ArrayPointers(a, s) && ValidateArray(a, s, depth) && Allocated(a, s)
    requires inherited + length <= a.length
    ensures SliceFits(a, s, inherited, length)
    decreases a
  {
    forall k | 0 <= k < |a.children|
      ensures SliceFits(a.children[k], s.children[k], ChildInherited(a, s, inherited), ChildLength(a, s, length, k))
    {
      ValidSliceFits(a.children[k], s.children[k], depth + 1, ChildInherited(a, s, inherited),
          ChildLength(a, s, length, k));
    }
    if a.dictionary.ArrowArray? {
      ValidSliceFits(a.dictionary, s.dictionary, depth + 1, 0, a.dictionary.length);
    }
  }

  /**
   A validated array normalises without an error, and DuckDB's importer then reads every row
   of the chunk as the Arrow specification defines it, inside the bitmaps it is given.
   */
  lemma ValidatedArraysImportFaithfully(a: ArrowArray, s: Schema)
    requires s.Schema? && SchemaPointers(s) && ValidateSchema(s, 0)
    requires a.ArrowArray? && ArrayPointers(a, s) && ValidateArray(a, s, 0)
    ensures Allocated(a, s)
    ensures Normalized(a, s, 0, a.length).Success? && Allocated(Normalized(a, s, 0, a.length).value, s)
    ensures StructOffsetsAreZero(Normalized(a, s, 0, a.length).value, s)
    ensures ImporterReadsInside(Normalized(a, s, 0, a.length).value, s)
    ensures HonestNullCounts(a, s) ==>
              Column(Importer, Normalized(a, s, 0, a.length).value, s) == Column(Standard, a, s)
  {
    ValidArrayIsAllocated(a, s, 0);
    ValidSliceFits(a, s, 0, 0, a.length);
    SucceedsExactlyWhenSliceFits(a, s, 0, a.length);
    ViewIsAllocated(a, s, 0, a.length);
    ViewSuitsTheImporter(a, s, 0, a.length);
    if HonestNullCounts(a, s) {
      WholeColumnKept(Importer, a, s);
    }
  }

  /** A struct of one int32 child, sliced by one row. */
  ghost function SlicedStruct(): (ArrowArray, Schema) {
    var leaf := Schema(false, Some("i"), None, 0, false, [], NullSchema);
    var ints := ArrowArray(false, 2, 0, 0, 2, true, [None, Some([7, 0, 0, 0, 9, 0, 0, 0])], 0, false, [], NullArray);
    (ArrowArray(false, 1, 0, 1, 1, true, [None], 1, true, [ints], NullArray),
     Schema(false, Some("+s"), None, 1, true, [leaf], NullSchema))
  }

  lemma SlicedStructIsValid()
    ensures var (a, s) := SlicedStruct();
            && SchemaPointers(s) && ValidateSchema(s, 0)
            && ArrayPointers(a, s) && ValidateArray(a, s, 0) && Allocated(a, s) && HonestNullCounts(a, s)
  {
    var (a, s) := SlicedStruct();
    var leaf, ints := s.children[0], a.children[0];
    assert SchemaPointers(leaf) && SchemaShape(leaf) && ValidateSchema(leaf, 1);
    assert ArrayPointers(ints, leaf) && ValidateArray(ints, leaf, 1) && Allocated(ints, leaf)
        && HonestNullCounts(ints, leaf);
  }

  /** Why the normaliser is there: on a validated array with a struct offset, DuckDB's importer
      alone reads another row than the Arrow specification does. */
  lemma ImporterAloneMisreadsSlices()
    ensures var (a, s) := SlicedStruct();
            && SchemaPointers(s) && ValidateSchema(s, 0) && SchemaShape(s)
            && ArrayPointers(a, s) && ValidateArray(a, s, 0) && Allocated(a, s) && HonestNullCounts(a, s)
            && Column(Importer, a, s) != Column(Standard, a, s)
  {
    SlicedStructIsValid();
    hide ValidateSchema, ValidateArray, SchemaPointers, ArrayPointers, HonestNullCounts;
    var (a, s) := SlicedStruct();
    var leaf, ints := s.children[0], a.children[0];
    assert SchemaShape(leaf) && Allocated(ints, leaf);
    assert ValueAt(Importer, ints, leaf, 0).position == 0;
    assert ValueAt(Standard, ints, leaf, 1).position == 1;
    assert Column(Importer, a, s)[0].fields[0] == ValueAt(Importer, ints, leaf, 0);
    assert Column(Standard, a, s)[0].fields[0] == ValueAt(Standard, ints, leaf, 1);
  }
}
