/**
 The slice normaliser: every struct becomes an offset-zero view whose slice has moved to its
 immediate children and whose bitmap is rebased; every other layout keeps its own offset
 and gets a padded copy of its bitmap.
 */
module ArrowNormalize {
  import opened Wrappers
  import opened Bitmaps
  import Integers
  import opened ArrowData

  datatype SliceError = SliceOutsideChild | SliceOverflows

  /** The slice that reaches child `k`: a struct hands its own slice down, any other
      layout keeps the child whole. */
  ghost function ChildInherited(a: ArrowArray, s: Schema, inherited: nat): nat
    requires SchemaShape(s) && Allocated(a, s)
  {
    if IsStruct(s) then a.offset + inherited else 0
  }

  ghost function ChildLength(a: ArrowArray, s: Schema, length: nat, k: nat): nat
    requires SchemaShape(s) && Allocated(a, s) && k < |a.children|
  {
    if IsStruct(s) then length else a.children[k].length
  }

  /** The errors the normaliser reports on one array, in the order it checks them. */
  ghost function SliceCheck(a: ArrowArray, inherited: nat, length: nat): Option<SliceError>
    requires a.ArrowArray?
  {
    if a.offset > Integers.INT64_MAX - inherited || inherited > a.length || length > a.length - inherited then
      Some(SliceOutsideChild)
    else if a.offset + inherited > Integers.INT64_MAX - length then
      Some(SliceOverflows)
    else
      None
  }

  /** Which error a slice that does not fit gets: one that leaves its array, or whose start no
      offset can hold, is outside; only the end of one that lies inside can overflow. */
  lemma SliceErrors(a: ArrowArray, inherited: nat, length: nat)
    requires a.ArrowArray? && a.length >= 0 && a.offset >= 0
    ensures SliceCheck(a, inherited, length) == Some(SliceOutsideChild) <==>
              inherited + length > a.length || a.offset + inherited > 0x7fff_ffff_ffff_ffff
    ensures SliceCheck(a, inherited, length) == Some(SliceOverflows) <==>
              && inherited + length <= a.length && a.offset + inherited <= 0x7fff_ffff_ffff_ffff
              && a.offset + inherited + length > 0x7fff_ffff_ffff_ffff
  {}

  /** A struct's own fields in its view: offset zero, the slice's length, the rebased bitmap. */
  ghost function StructHead(a: ArrowArray, s: Schema, inherited: nat, length: nat): (view: ArrowArray)
    requires SchemaShape(s) && Allocated(a, s) && IsStruct(s)
    requires SliceCheck(a, inherited, length).None?
  {
    var from := a.offset + inherited;
    if a.buffers[0].Some? && a.nullCount != 0 then
      var bits := a.buffers[0].value;
      a.(released := false, offset := 0, length := length, nullCount := Nulls(bits, from, length),
         buffers := a.buffers[0 := Some(Rebased(bits, from, BytesFor(length) + 1, length))])
    else
      a.(released := false, offset := 0, length := length, nullCount := 0, buffers := a.buffers[0 := None])
  }

  /** Any other array's own fields in its view. */
  ghost function PlainHead(a: ArrowArray, s: Schema, inherited: nat, length: nat): (view: ArrowArray)
    requires SchemaShape(s) && Allocated(a, s) && !IsStruct(s)
    requires SliceCheck(a, inherited, length).None?
  {
    var moved := a.(released := false, offset := a.offset + inherited, length := length);
    if a.nullCount != 0 && Validity(a, s).Some? then
      moved.(buffers := a.buffers[0 := Some(Padded(a.buffers[0].value, a.offset + a.length))])
    else
      moved
  }

  /** The view of rows `[inherited, inherited + length)` of `a`, or the first error met. */
  ghost function Normalized(a: ArrowArray, s: Schema, inherited: nat, length: nat): (r: Result<ArrowArray, SliceError>)
    requires SchemaShape(s) && Allocated(a, s)
    ensures r.Success? ==> r.value.ArrowArray?
    decreases a, 1
  {
    var failed := SliceCheck(a, inherited, length);
    if failed.Some? then
      Failure(failed.value)
    else
      var head := if IsStruct(s) then StructHead(a, s, inherited, length) else PlainHead(a, s, inherited, length);
      var children := NormalizedChildren(a, s, inherited, length, |a.children|);
      if children.Failure? then Failure(children.error)
      else if a.dictionary.ArrowArray? then
        var dictionary := Normalized(a.dictionary, s.dictionary, 0, a.dictionary.length);
        if dictionary.Failure? then dictionary
        else Success(head.(children := children.value, dictionary := dictionary.value))
      else
        Success(head.(children := children.value))
  }

  /** The views of the first `n` children, or the first error met. */
  ghost function NormalizedChildren(a: ArrowArray, s: Schema, inherited: nat, length: nat, n: nat)
    : (r: Result<seq<ArrowArray>, SliceError>)
    requires SchemaShape(s) && Allocated(a, s) && n <= |a.children|
    ensures r.Success? ==> |r.value| == n
    decreases a, 0, n
  {
    if n == 0 then
      Success([])
    else
      var before := NormalizedChildren(a, s, inherited, length, n - 1);
      if before.Failure? then before
      else
        var child := Normalized(a.children[n - 1], s.children[n - 1], ChildInherited(a, s, inherited),
            ChildLength(a, s, length, n - 1));
        if child.Failure? then Failure(child.error) else Success(before.value + [child.value])
  }

  ghost function ChildView(a: ArrowArray, s: Schema, inherited: nat, length: nat, k: nat)
    : Result<ArrowArray, SliceError>
    requires SchemaShape(s) && Allocated(a, s) && k < |a.children|
  {
    Normalized(a.children[k], s.children[k], ChildInherited(a, s, inherited), ChildLength(a, s, length, k))
  }

  lemma {:induction false} ChildrenAt(a: ArrowArray, s: Schema, inherited: nat, length: nat, n: nat)
    requires SchemaShape(s) && Allocated(a, s) && n <= |a.children|
    ensures NormalizedChildren(a, s, inherited, length, n).Success? <==>
            forall k :: 0 <= k < n ==> ChildView(a, s, inherited, length, k).Success?
    ensures NormalizedChildren(a, s, inherited, length, n).Success? ==>
              forall k :: 0 <= k < n ==>
                NormalizedChildren(a, s, inherited, length, n).value[k] == ChildView(a, s, inherited, length, k).value
  {
    if n > 0 {
      ChildrenAt(a, s, inherited, length, n - 1);
      var before := NormalizedChildren(a, s, inherited, length, n - 1);
      var child := ChildView(a, s, inherited, length, n - 1);
      assert NormalizedChildren(a, s, inherited, length, n).Success? <==> before.Success? && child.Success?;
    }
  }

  lemma ChildOfView(a: ArrowArray, s: Schema, inherited: nat, length: nat, k: nat)
    requires SchemaShape(s) && Allocated(a, s) && k < |a.children|
    requires Normalized(a, s, inherited, length).Success?
    ensures |Normalized(a, s, inherited, length).value.children| == |a.children| == |s.children|
    ensures SchemaShape(s.children[k]) && Allocated(a.children[k], s.children[k])
    ensures HonestNullCounts(a, s) ==> HonestNullCounts(a.children[k], s.children[k])
    ensures Normalized(a.children[k], s.children[k], ChildInherited(a, s, inherited), ChildLength(a, s, length, k))
         == Success(Normalized(a, s, inherited, length).value.children[k])
  {
    ChildrenAt(a, s, inherited, length, |a.children|);
    assert ChildView(a, s, inherited, length, k).Success?;
  }

  /**
   Exactly when normalising succeeds: at every struct the slice that reaches it lies inside
   its children, and no offset overflows.
   */
  ghost predicate SliceFits(a: ArrowArray, s: Schema, inherited: nat, length: nat)
    requires SchemaShape(s) && Allocated(a, s)
    decreases a
  {
    && inherited + length <= a.length
    && a.offset + inherited + length <= Integers.INT64_MAX
    && (forall k :: 0 <= k < |a.children| ==>
          SliceFits(a.children[k], s.children[k], ChildInherited(a, s, inherited), ChildLength(a, s, length, k)))
    && (a.dictionary.ArrowArray? ==> SliceFits(a.dictionary, s.dictionary, 0, a.dictionary.length))
  }

  lemma {:induction false} SucceedsExactlyWhenSliceFits(a: ArrowArray, s: Schema, inherited: nat, length: nat)
    requires SchemaShape(s) && Allocated(a, s)
    ensures Normalized(a, s, inherited, length).Success? <==> SliceFits(a, s, inherited, length)
    decreases a
  {
    forall k | 0 <= k < |a.children|
      ensures ChildView(a, s, inherited, length, k).Success? <==>
              SliceFits(a.children[k], s.children[k], ChildInherited(a, s, inherited), ChildLength(a, s, length, k))
    {
      SucceedsExactlyWhenSliceFits(a.children[k], s.children[k], ChildInherited(a, s, inherited),
          ChildLength(a, s, length, k));
    }
    ChildrenAt(a, s, inherited, length, |a.children|);
    if a.dictionary.ArrowArray? {
      SucceedsExactlyWhenSliceFits(a.dictionary, s.dictionary, 0, a.dictionary.length);
    }
  }

  lemma HeadCoversItsRows(a: ArrowArray, s: Schema, inherited: nat, length: nat)
    requires SchemaShape(s) && Allocated(a, s) && SliceCheck(a, inherited, length).None?
    ensures var head := if IsStruct(s) then StructHead(a, s, inherited, length) else PlainHead(a, s, inherited, length);
            && head.length == length && head.offset >= 0
            && |head.buffers| == head.nBuffers == a.nBuffers && head.nChildren == a.nChildren
            && (Validity(head, s).Some? ==>
                  && head.offset + length <= Integers.INT64_MAX
                  && BytesFor(head.offset + length) <= |Validity(head, s).value|)
  {
  }

  /** The view is again an allocated array for the same schema. */
  lemma {:induction false} ViewIsAllocated(a: ArrowArray, s: Schema, inherited: nat, length: nat)
    requires SchemaShape(s) && Allocated(a, s)
    requires Normalized(a, s, inherited, length).Success?
    ensures Allocated(Normalized(a, s, inherited, length).value, s)
    ensures Normalized(a, s, inherited, length).value.length == length
    decreases a
  {
    var view := Normalized(a, s, inherited, length).value;
    HeadCoversItsRows(a, s, inherited, length);
    ChildrenAt(a, s, inherited, length, |a.children|);
    hide StructHead, PlainHead;
    forall k | 0 <= k < |a.children|
      ensures Allocated(view.children[k], s.children[k])
    {
      assert ChildView(a, s, inherited, length, k).Success?;
      ViewIsAllocated(a.children[k], s.children[k], ChildInherited(a, s, inherited), ChildLength(a, s, length, k));
    }
    if a.dictionary.ArrowArray? {
      ViewIsAllocated(a.dictionary, s.dictionary, 0, a.dictionary.length);
    }
  }

  /** Which rows of a struct's view are null, for either reader. */
  lemma StructHeadKeepsValidity(reader: Reader, a: ArrowArray, s: Schema, inherited: nat, length: nat, row: nat)
    requires SchemaShape(s) && Allocated(a, s) && HonestNullCounts(a, s) && IsStruct(s)
    requires SliceCheck(a, inherited, length).None? && row < length
    ensures RowValid(reader, StructHead(a, s, inherited, length), s, row)
         == RowValid(Standard, a, s, a.offset + inherited + row)
  {
    hide BitAt;
    if Validity(a, s).Some? && a.nullCount != 0 {
      var bits, from := Validity(a, s).value, a.offset + inherited;
      RebasedBits(bits, from, BytesFor(length) + 1, length, row);
      NoNullsMeansAllSet(bits, from, length);
    }
  }

  /** Which rows of any other view are null, for either reader. */
  lemma PlainHeadKeepsValidity(reader: Reader, a: ArrowArray, s: Schema, inherited: nat, length: nat, row: nat)
    requires SchemaShape(s) && Allocated(a, s) && HonestNullCounts(a, s) && !IsStruct(s)
    requires SliceCheck(a, inherited, length).None? && row < length
    ensures RowValid(reader, PlainHead(a, s, inherited, length), s, a.offset + inherited + row)
         == RowValid(Standard, a, s, a.offset + inherited + row)
  {
    hide BitAt;
    if Validity(a, s).Some? && a.nullCount != 0 {
      PaddedBits(Validity(a, s).value, a.offset + a.length, a.offset + inherited + row);
    }
  }

  /** One struct level: the fields of the view's row are those of the source's row. */
  lemma StructLevel(reader: Reader, a: ArrowArray, s: Schema, inherited: nat, length: nat, row: nat, view: ArrowArray)
    requires SchemaShape(s) && Allocated(a, s) && HonestNullCounts(a, s) && IsStruct(s)
    requires Normalized(a, s, inherited, length) == Success(view) && Allocated(view, s) && row < length
    requires Fields(reader, view, s, row) == Fields(Standard, a, s, a.offset + inherited + row)
    ensures ValueAt(reader, view, s, row) == ValueAt(Standard, a, s, inherited + row)
  {
    hide BitAt;
    var head := StructHead(a, s, inherited, length);
    StructHeadKeepsValidity(reader, a, s, inherited, length, row);
    assert RowValid(reader, view, s, row) == RowValid(reader, head, s, row);
  }

  /** One level of any other layout: same buffers, same position, same child columns. */
  lemma PlainLevel(reader: Reader, a: ArrowArray, s: Schema, inherited: nat, length: nat, row: nat, view: ArrowArray)
    requires SchemaShape(s) && Allocated(a, s) && HonestNullCounts(a, s) && !IsStruct(s)
    requires Normalized(a, s, inherited, length) == Success(view) && Allocated(view, s) && row < length
    requires Columns(reader, view, s) == Columns(Standard, a, s)
    requires DictionaryColumn(reader, view, s) == DictionaryColumn(Standard, a, s)
    ensures ValueAt(reader, view, s, row) == ValueAt(Standard, a, s, inherited + row)
  {
    hide PlainHead, SliceCheck, Normalized, NormalizedChildren, HonestNullCounts, RowValid, DataBuffers, Interpret;
    PlainParts(reader, a, s, inherited, length, row, view);
  }

  /** What a view that is no struct takes from its source, row for row. */
  lemma PlainParts(reader: Reader, a: ArrowArray, s: Schema, inherited: nat, length: nat, row: nat, view: ArrowArray)
    requires SchemaShape(s) && Allocated(a, s) && HonestNullCounts(a, s) && !IsStruct(s)
    requires Normalized(a, s, inherited, length) == Success(view) && Allocated(view, s) && row < length
    ensures RowValid(reader, view, s, view.offset + row) == RowValid(Standard, a, s, a.offset + inherited + row)
    ensures view.offset == a.offset + inherited && DataBuffers(view, s) == DataBuffers(a, s)
  {
    hide BitAt;
    var head := PlainHead(a, s, inherited, length);
    PlainHeadKeepsValidity(reader, a, s, inherited, length, row);
    assert RowValid(reader, view, s, view.offset + row) == RowValid(reader, head, s, head.offset + row);
    hide HonestNullCounts;
  }

  /**
   The meaning of a slice survives normalisation: at every depth, both the Arrow reader and
   DuckDB's importer read from the view's row `row` what the Arrow specification reads from
   the source's row `inherited + row`.
   */
  lemma {:induction false} NormalizingKeepsMeaning(reader: Reader, a: ArrowArray, s: Schema, inherited: nat,
                                                     length: nat, row: nat)
    requires SchemaShape(s) && Allocated(a, s) && HonestNullCounts(a, s)
    requires Normalized(a, s, inherited, length).Success?
    requires Allocated(Normalized(a, s, inherited, length).value, s)
    requires row < length
    ensures ValueAt(reader, Normalized(a, s, inherited, length).value, s, row)
         == ValueAt(Standard, a, s, inherited + row)
    decreases a, 1
  {
    var view := Normalized(a, s, inherited, length).value;
    if IsStruct(s) {
      FieldsKept(reader, a, s, inherited, length, row);
      StructLevel(reader, a, s, inherited, length, row, view);
    } else {
      ColumnsKept(reader, a, s, inherited, length);
      PlainLevel(reader, a, s, inherited, length, row, view);
    }
  }

  lemma {:induction false} FieldsKept(reader: Reader, a: ArrowArray, s: Schema, inherited: nat, length: nat, row: nat)
    requires SchemaShape(s) && Allocated(a, s) && HonestNullCounts(a, s) && IsStruct(s)
    requires Normalized(a, s, inherited, length).Success?
    requires Allocated(Normalized(a, s, inherited, length).value, s)
    requires row < length
    ensures Fields(reader, Normalized(a, s, inherited, length).value, s, row)
         == Fields(Standard, a, s, a.offset + inherited + row)
    decreases a, 0, 1
  {
    var view := Normalized(a, s, inherited, length).value;
    forall k | 0 <= k < |a.children|
      ensures ValueAt(reader, view.children[k], s.children[k], row)
           == ValueAt(Standard, a.children[k], s.children[k], a.offset + inherited + row)
    {
      FieldKept(reader, a, s, inherited, length, row, k);
    }
  }

  lemma AllocatedChild(a: ArrowArray, s: Schema, k: nat)
    requires SchemaShape(s) && Allocated(a, s) && k < |a.children|
    ensures k < |s.children| && Allocated(a.children[k], s.children[k])
  {}

  lemma StructHandsDown(a: ArrowArray, s: Schema, inherited: nat, length: nat, k: nat)
    requires SchemaShape(s) && Allocated(a, s) && IsStruct(s) && k < |a.children|
    ensures ChildInherited(a, s, inherited) == a.offset + inherited && ChildLength(a, s, length, k) == length
  {
    hide SchemaShape, Allocated;
  }

  lemma {:induction false} FieldKept(reader: Reader, a: ArrowArray, s: Schema, inherited: nat, length: nat,
                                       row: nat, k: nat)
    requires SchemaShape(s) && Allocated(a, s) && HonestNullCounts(a, s) && IsStruct(s)
    requires Normalized(a, s, inherited, length).Success?
    requires Allocated(Normalized(a, s, inherited, length).value, s)
    requires row < length && k < |a.children|
    ensures ValueAt(reader, Normalized(a, s, inherited, length).value.children[k], s.children[k], row)
         == ValueAt(Standard, a.children[k], s.children[k], a.offset + inherited + row)
    decreases a, 0, 0
  {
    hide *;
    ChildOfView(a, s, inherited, length, k);
    AllocatedChild(Normalized(a, s, inherited, length).value, s, k);
    StructHandsDown(a, s, inherited, length, k);
    NormalizingKeepsMeaning(reader, a.children[k], s.children[k], a.offset + inherited, length, row);
  }

  lemma {:induction false} ColumnsKept(reader: Reader, a: ArrowArray, s: Schema, inherited: nat, length: nat)
    requires SchemaShape(s) && Allocated(a, s) && HonestNullCounts(a, s) && !IsStruct(s)
    requires Normalized(a, s, inherited, length).Success?
    requires Allocated(Normalized(a, s, inherited, length).value, s)
    ensures Columns(reader, Normalized(a, s, inherited, length).value, s) == Columns(Standard, a, s)
    ensures DictionaryColumn(reader, Normalized(a, s, inherited, length).value, s) == DictionaryColumn(Standard, a, s)
    decreases a, 0
  {
    var view := Normalized(a, s, inherited, length).value;
    ChildrenAt(a, s, inherited, length, |a.children|);
    forall k | 0 <= k < |a.children|
      ensures Column(reader, view.children[k], s.children[k]) == Column(Standard, a.children[k], s.children[k])
    {
      assert ChildView(a, s, inherited, length, k).Success?;
      WholeColumnKept(reader, a.children[k], s.children[k]);
    }
    if a.dictionary.ArrowArray? {
      WholeColumnKept(reader, a.dictionary, s.dictionary);
    }
  }

  lemma {:induction false} WholeColumnKept(reader: Reader, a: ArrowArray, s: Schema)
    requires SchemaShape(s) && Allocated(a, s) && HonestNullCounts(a, s)
    requires Normalized(a, s, 0, a.length).Success?
    requires Allocated(Normalized(a, s, 0, a.length).value, s)
    ensures Column(reader, Normalized(a, s, 0, a.length).value, s) == Column(Standard, a, s)
    decreases a, 2
  {
    ViewIsAllocated(a, s, 0, a.length);
    forall row | 0 <= row < a.length
      ensures ValueAt(reader, Normalized(a, s, 0, a.length).value, s, row) == ValueAt(Standard, a, s, row)
    {
      NormalizingKeepsMeaning(reader, a, s, 0, a.length, row);
    }
  }

  /** No struct of the array has an offset for an importer to lose. */
  ghost predicate StructOffsetsAreZero(a: ArrowArray, s: Schema)
    requires SchemaShape(s) && Allocated(a, s)
  {
    && (IsStruct(s) ==> a.offset == 0)
    && (forall k :: 0 <= k < |a.children| ==> StructOffsetsAreZero(a.children[k], s.children[k]))
    && (a.dictionary.ArrowArray? ==> StructOffsetsAreZero(a.dictionary, s.dictionary))
  }

  /** DuckDB reads the ceil(n / 8) + 1 bytes from byte `first / 8` for a window of `n` rows. */
  ghost predicate WindowReadInside(first: nat, n: nat, bytes: nat) {
    first / 8 + BytesFor(n) + 1 <= bytes
  }

  /** For every window of rows inside the array, the importer reads only bitmap bytes that
      are there, at every level. */
  ghost predicate ImporterReadsInside(a: ArrowArray, s: Schema)
    requires SchemaShape(s) && Allocated(a, s)
  {
    && (Validity(a, s).Some? && a.nullCount != 0 ==>
          forall first: nat, n: nat | first + n <= a.offset + a.length ::
            WindowReadInside(first, n, |Validity(a, s).value|))
    && (forall k :: 0 <= k < |a.children| ==> ImporterReadsInside(a.children[k], s.children[k]))
    && (a.dictionary.ArrowArray? ==> ImporterReadsInside(a.dictionary, s.dictionary))
  }

  lemma HeadIsPadded(a: ArrowArray, s: Schema, inherited: nat, length: nat)
    requires SchemaShape(s) && Allocated(a, s) && SliceCheck(a, inherited, length).None?
    ensures var head := if IsStruct(s) then StructHead(a, s, inherited, length) else PlainHead(a, s, inherited, length);
            && (IsStruct(s) ==> head.offset == 0)
            && head.offset >= 0 && head.length >= 0
            && (Validity(head, s).Some? && head.nullCount != 0 ==>
                  forall first: nat, n: nat | first + n <= head.offset + head.length ::
                    WindowReadInside(first, n, |Validity(head, s).value|))
  {
    var head := if IsStruct(s) then StructHead(a, s, inherited, length) else PlainHead(a, s, inherited, length);
    var covered := if IsStruct(s) then length else a.offset + a.length;
    if Validity(head, s).Some? && head.nullCount != 0 {
      forall first: nat, n: nat | first + n <= head.offset + head.length
        ensures WindowReadInside(first, n, |Validity(head, s).value|)
      {
        WindowFitsPadding(first, n, covered);
      }
    }
  }

  lemma {:induction false} ViewSuitsTheImporter(a: ArrowArray, s: Schema, inherited: nat, length: nat)
    requires SchemaShape(s) && Allocated(a, s)
    requires Normalized(a, s, inherited, length).Success?
    requires Allocated(Normalized(a, s, inherited, length).value, s)
    ensures StructOffsetsAreZero(Normalized(a, s, inherited, length).value, s)
    ensures ImporterReadsInside(Normalized(a, s, inherited, length).value, s)
    decreases a
  {
    var view := Normalized(a, s, inherited, length).value;
    ChildrenAt(a, s, inherited, length, |a.children|);
    HeadIsPadded(a, s, inherited, length);
    hide StructHead, PlainHead, SliceCheck;
    forall k | 0 <= k < |a.children|
      ensures StructOffsetsAreZero(view.children[k], s.children[k])
      ensures ImporterReadsInside(view.children[k], s.children[k])
    {
      assert ChildView(a, s, inherited, length, k).Success?;
      ViewSuitsTheImporter(a.children[k], s.children[k], ChildInherited(a, s, inherited), ChildLength(a, s, length, k));
    }
    if a.dictionary.ArrowArray? {
      ViewSuitsTheImporter(a.dictionary, s.dictionary, 0, a.dictionary.length);
    }
  }
}
