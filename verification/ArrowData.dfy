/**
 The structures of the Arrow C Data Interface as this extension reads them, and what an
 array means: once as the Arrow specification defines it, once as DuckDB's importer
 reads it.
 */
module ArrowData {
  import opened Wrappers
  import opened Integers
  import Bitmaps
  import ArrowMetadata

  /** A `const void *` buffer: absent, or the bytes the producer allocated. */
  type Buffer = Option<seq<bv8>>

  datatype Schema =
    | NullSchema
    | Schema(released: bool, format: Option<string>, metadata: Option<seq<ArrowMetadata.Byte>>,
             nChildren: int64, hasChildren: bool, children: seq<Schema>, dictionary: Schema)

  /** `hasBuffers` and `hasChildren` say whether the pointer arrays are non-null. */
  datatype ArrowArray =
    | NullArray
    | ArrowArray(released: bool, length: int64, nullCount: int64, offset: int64,
                 nBuffers: int64, hasBuffers: bool, buffers: seq<Buffer>,
                 nChildren: int64, hasChildren: bool, children: seq<ArrowArray>,
                 dictionary: ArrowArray)

  predicate IsStruct(s: Schema)
    requires s.Schema? && s.format.Some?
  {
    s.format.value == "+s"
  }

  /** Buffer 0 of a union holds type ids, so it is not a validity bitmap. */
  predicate IsUnion(s: Schema)
    requires s.Schema? && s.format.Some?
  {
    "+u" <= s.format.value
  }

  /** The format, the child count and the child and dictionary pointers of a schema that
      validation accepted, at every level. */
  ghost predicate SchemaShape(s: Schema): (ok: bool)
    ensures ok ==> s.Schema? && s.format.Some? && s.nChildren == |s.children|
  {
    && s.Schema? && s.format.Some? && s.nChildren == |s.children|
    && (forall k :: 0 <= k < |s.children| ==> SchemaShape(s.children[k]))
    && (s.dictionary.Schema? ==> SchemaShape(s.dictionary))
  }

  /** The validity bitmap of `a`, if its layout has one and the producer supplied it. */
  function Validity(a: ArrowArray, s: Schema): Buffer
    requires a.ArrowArray? && s.Schema? && s.format.Some?
  {
    if IsUnion(s) || a.buffers == [] then None else a.buffers[0]
  }

  /** The buffers that hold values: all but the validity bitmap. */
  function DataBuffers(a: ArrowArray, s: Schema): seq<Buffer>
    requires a.ArrowArray? && s.Schema? && s.format.Some?
  {
    if IsUnion(s) || a.buffers == [] then a.buffers else a.buffers[1..]
  }

  /**
   What every consumer has to take on trust from a producer, at every level: the pointer
   arrays have their declared length, a struct has its validity slot, and a validity bitmap
   covers the rows of the array (so their count is an int64).
   */
  ghost predicate Allocated(a: ArrowArray, s: Schema): (ok: bool)
    requires SchemaShape(s)
    ensures ok ==> a.ArrowArray? && a.length >= 0 && a.offset >= 0
  {
    && a.ArrowArray?
    && a.length >= 0 && a.offset >= 0
    && |a.buffers| == a.nBuffers
    && |a.children| == a.nChildren == |s.children|
    && a.dictionary.ArrowArray? == s.dictionary.Schema?
    && (IsStruct(s) ==> |a.buffers| > 0)
    && (Validity(a, s).Some? ==>
          && a.offset + a.length <= INT64_MAX
          && Bitmaps.BytesFor(a.offset + a.length) <= |Validity(a, s).value|)
    && (forall k :: 0 <= k < |a.children| ==> Allocated(a.children[k], s.children[k]))
    && (a.dictionary.ArrowArray? ==> Allocated(a.dictionary, s.dictionary))
  }

  /** A declared null count of zero is true of the array's rows, at every level. */
  ghost predicate HonestNullCounts(a: ArrowArray, s: Schema)
    requires SchemaShape(s) && Allocated(a, s)
  {
    && (a.nullCount == 0 && Validity(a, s).Some? ==>
          forall p :: a.offset <= p < a.offset + a.length ==> Bitmaps.BitAt(Validity(a, s).value, p))
    && (forall k :: 0 <= k < |a.children| ==> HonestNullCounts(a.children[k], s.children[k]))
    && (a.dictionary.ArrowArray? ==> HonestNullCounts(a.dictionary, s.dictionary))
  }

  /** A value read from an array. `Cell` stands for whatever a layout without a rule of its
      own here reads at position `position`: it is a function of exactly these parts. */
  datatype Value =
    | Absent
    | StructValue(fields: seq<Value>)
    | ListValue(items: seq<Value>)
    | Cell(format: string, data: seq<Buffer>, position: nat, columns: seq<seq<Value>>,
           dictionary: Option<seq<Value>>)

  /** The little-endian unsigned integer in `width` bytes from `at`. */
  function ReadInteger(bytes: seq<bv8>, at: nat, width: nat): nat
    decreases width
  {
    if width == 0 || at >= |bytes| then 0
    else bytes[at] as nat + 256 * ReadInteger(bytes, at + 1, width - 1)
  }

  function ParseNat(digits: string): nat {
    if digits == [] then 0
    else
      var d := digits[|digits| - 1];
      10 * ParseNat(digits[..|digits| - 1]) + (if '0' <= d <= '9' then d as nat - '0' as nat else 0)
  }

  function IndexWidth(format: string): nat {
    if format == "c" || format == "C" then 1
    else if format == "s" || format == "S" then 2
    else if format == "i" || format == "I" then 4
    else 8
  }

  function Slice(column: seq<Value>, lo: nat, hi: nat): Option<Value> {
    if lo <= hi <= |column| then Some(ListValue(column[lo..hi])) else None
  }

  function BufferAt(data: seq<Buffer>, k: nat): seq<bv8> {
    if k < |data| && data[k].Some? then data[k].value else []
  }

  /**
   The value of a non-struct layout at physical position `p`, from its data buffers and
   from the logical values of its children and dictionary (Arrow Columnar Format, sections
   "Variable-size List Layout", "Fixed-Size List Layout" and "Dictionary-encoded Layout").
   */
  function Interpret(format: string, data: seq<Buffer>, p: nat, columns: seq<seq<Value>>,
                     dictionary: Option<seq<Value>>): Value
  {
    var cell := Cell(format, data, p, columns, dictionary);
    if dictionary.Some? then
      var w := IndexWidth(format);
      var index := ReadInteger(BufferAt(data, 0), p * w, w);
      if index < |dictionary.value| then dictionary.value[index] else cell
    else if |columns| != 1 then
      cell
    else
      var list :=
        if format == "+l" || format == "+m" then
          Slice(columns[0], ReadInteger(BufferAt(data, 0), 4 * p, 4), ReadInteger(BufferAt(data, 0), 4 * p + 4, 4))
        else if format == "+L" then
          Slice(columns[0], ReadInteger(BufferAt(data, 0), 8 * p, 8), ReadInteger(BufferAt(data, 0), 8 * p + 8, 8))
        else if "+w:" <= format then
          Slice(columns[0], p * ParseNat(format[3..]), (p + 1) * ParseNat(format[3..]))
        else None;
      if list.Some? then list.value else cell
  }

  /**
   Who reads an array. `Standard` is the Arrow specification: a struct's offset shifts its
   children, and its bitmap counts whenever it is there. `Importer` is DuckDB's C importer:
   it does not carry a struct's offset to its children, and it skips a bitmap whose array
   declares no nulls.
   */
  datatype Reader = Standard | Importer

  predicate RowValid(reader: Reader, a: ArrowArray, s: Schema, p: nat)
    requires a.ArrowArray? && s.Schema? && s.format.Some?
  {
    || Validity(a, s).None?
    || (reader == Importer && a.nullCount == 0)
    || Bitmaps.BitAt(Validity(a, s).value, p)
  }

  /** Row `row` of array `a`, as `reader` sees it. */
  ghost function ValueAt(reader: Reader, a: ArrowArray, s: Schema, row: nat): Value
    requires SchemaShape(s) && Allocated(a, s)
    decreases a, 1
  {
    var p := a.offset + row;
    if !RowValid(reader, a, s, p) then
      Absent
    else if IsStruct(s) then
      StructValue(Fields(reader, a, s, if reader == Standard then p else row))
    else
      Interpret(s.format.value, DataBuffers(a, s), p, Columns(reader, a, s), DictionaryColumn(reader, a, s))
  }

  /** Row `at` of every child. */
  ghost function Fields(reader: Reader, a: ArrowArray, s: Schema, at: nat): seq<Value>
    requires SchemaShape(s) && Allocated(a, s)
    decreases a, 0
  {
    seq(|a.children|, k requires 0 <= k < |a.children| => ValueAt(reader, a.children[k], s.children[k], at))
  }

  /** All rows of array `a`, as `reader` sees them. */
  ghost function Column(reader: Reader, a: ArrowArray, s: Schema): seq<Value>
    requires SchemaShape(s) && Allocated(a, s)
    decreases a, 2
  {
    seq(a.length, row requires 0 <= row < a.length => ValueAt(reader, a, s, row))
  }

  ghost function Columns(reader: Reader, a: ArrowArray, s: Schema): seq<seq<Value>>
    requires SchemaShape(s) && Allocated(a, s)
    decreases a, 0
  {
    seq(|a.children|, k requires 0 <= k < |a.children| => Column(reader, a.children[k], s.children[k]))
  }

  ghost function DictionaryColumn(reader: Reader, a: ArrowArray, s: Schema): Option<seq<Value>>
    requires SchemaShape(s) && Allocated(a, s)
    decreases a, 0
  {
    if a.dictionary.ArrowArray? then Some(Column(reader, a.dictionary, s.dictionary)) else None
  }
}
