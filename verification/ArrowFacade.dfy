/**
 `normalize_arrow_array` itself: it builds a tree of facades that borrow the producer's
 buffers and own the bitmaps they replace.
 */
module ArrowFacade {
  import opened Wrappers
  import Bitmaps
  import opened Integers
  import opened ArrowData
  import opened ArrowNormalize

  class ArrowArrayFacade {
    /** The fields that the view takes over unchanged. */
    const source: ArrowArray
    var length: int64
    var nullCount: int64
    var offset: int64
    var buffers: seq<Buffer>
    /** When present, the owned bytes that buffer 0 points at. */
    var validity: array?<bv8>
    var children: seq<ArrowArrayFacade>
    var dictionary: ArrowArrayFacade?
    ghost var Repr: set<object>

    constructor (source: ArrowArray, offset: int64, length: int64)
      requires source.ArrowArray?
      ensures this.source == source && this.offset == offset && this.length == length
      ensures nullCount == source.nullCount && buffers == source.buffers
      ensures validity == null && children == [] && dictionary == null
    {
      this.source, this.offset, this.length := source, offset, length;
      nullCount, buffers, validity := source.nullCount, source.buffers, null;
      children, dictionary, Repr := [], null, {};
    }

    ghost predicate Valid(): (ok: bool)
      reads this, Repr
      ensures ok ==> this in Repr && source.ArrowArray?
      decreases Repr
    {
      && this in Repr && source.ArrowArray?
      && (validity != null ==> validity in Repr && |buffers| > 0)
      && (forall k :: 0 <= k < |children| ==>
            children[k] in Repr && children[k].Repr <= Repr && this !in children[k].Repr && children[k].Valid())
      && (dictionary != null ==>
            dictionary in Repr && dictionary.Repr <= Repr && this !in dictionary.Repr && dictionary.Valid())
    }

    /** The facade's own fields as a consumer reads them. */
    ghost function Head(): (a: ArrowArray)
      requires source.ArrowArray? && (validity != null ==> |buffers| > 0)
      reads this, validity
      ensures a.ArrowArray?
    {
      source.(released := false, offset := offset, length := length, nullCount := nullCount,
              buffers := if validity != null then buffers[0 := Some(validity[..])] else buffers)
    }

    /** The array that a consumer of the facade reads. */
    ghost function AsArray(): (a: ArrowArray)
      requires Valid()
      reads this, Repr
      ensures a.ArrowArray?
      decreases Repr, |children| + 1
    {
      var head := Head();
      head.(children := ChildArrays(|children|),
            dictionary := if dictionary != null then dictionary.AsArray() else NullArray)
    }

    ghost function ChildArrays(n: nat): (arrays: seq<ArrowArray>)
      requires Valid() && n <= |children|
      reads this, Repr
      ensures |arrays| == n
      decreases Repr, n
    {
      if n == 0 then [] else ChildArrays(n - 1) + [children[n - 1].AsArray()]
    }

    /** Hand the facade its children and dictionary; it is then complete. */
    method Attach(children: seq<ArrowArrayFacade>, dictionary: ArrowArrayFacade?, ghost arrays: seq<ArrowArray>,
        ghost repr: set<object>)
      requires source.ArrowArray? && (validity != null ==> |buffers| > 0)
      requires this in repr && (validity != null ==> validity in repr)
      requires Represent(children, arrays) && forall c <- children :: c.Repr <= repr && this !in c.Repr
      requires dictionary != null ==> dictionary in dictionary.Repr && dictionary.Valid()
      requires dictionary != null ==> dictionary.Repr <= repr && this !in dictionary.Repr
      modifies this
      ensures Valid() && Repr == repr && Head() == old(Head())
      ensures this.children == children && Represent(children, arrays)
      ensures this.dictionary == dictionary
          && (dictionary != null ==> dictionary.AsArray() == old(dictionary.AsArray()))
    {
      hide AsArray;
      this.children, this.dictionary, Repr := children, dictionary, repr;
    }

    lemma AsArrayIs(arrays: seq<ArrowArray>)
      requires Valid() && Represent(children, arrays)
      ensures AsArray().ArrowArray? && AsArray().children == arrays
      ensures AsArray().dictionary == if dictionary != null then dictionary.AsArray() else NullArray
      ensures var head := Head(); AsArray() == head.(children := arrays, dictionary := AsArray().dictionary)
    {
      ChildArraysAre(|children|, arrays);
      assert arrays[..|children|] == arrays;
    }

    lemma {:induction false} ChildArraysAre(n: nat, arrays: seq<ArrowArray>)
      requires Valid() && n <= |children| && n <= |arrays|
      requires forall k :: 0 <= k < n ==> arrays[k] == children[k].AsArray()
      ensures ChildArrays(n) == arrays[..n]
    {
      if n > 0 {
        ChildArraysAre(n - 1, arrays);
      }
    }
  }

  /** A view's own fields: the struct branch rebases the bitmap, the other branch pads it. */
  method NewView(source: ArrowArray, schema: Schema, inheritedOffset: int64, length: int64)
    returns (view: ArrowArrayFacade)
    requires SchemaShape(schema) && Allocated(source, schema) && inheritedOffset >= 0 && length >= 0
    requires SliceCheck(source, inheritedOffset, length).None?
    ensures fresh(view) && view.children == [] && view.dictionary == null
    ensures view.source.ArrowArray?
    ensures view.validity != null ==> fresh(view.validity) && |view.buffers| > 0
    ensures view.Head() == if IsStruct(schema) then StructHead(source, schema, inheritedOffset, length)
                           else PlainHead(source, schema, inheritedOffset, length)
  {
    hide Bitmaps.BitAt, Bitmaps.Rebased, Bitmaps.Nulls;
    assert IsStruct(schema) ==> !IsUnion(schema) by {
      assert "+u"[1] != "+s"[1];
    }
    var effectiveOffset: int64 := source.offset + inheritedOffset;
    view := new ArrowArrayFacade(source, effectiveOffset, length);
    if IsStruct(schema) {
      view.offset := 0;
      if source.buffers[0].Some? && source.nullCount != 0 {
        var validity, nulls := Bitmaps.RebaseBitmap(source.buffers[0].value, effectiveOffset, length);
        view.validity, view.nullCount := validity, nulls;
      } else {
        view.nullCount, view.buffers := 0, view.buffers[0 := None];
      }
    } else if source.nullCount != 0 && |source.buffers| > 0 && source.buffers[0].Some? && !IsUnion(schema) {
      var validity := Bitmaps.PadBitmap(source.buffers[0].value, source.offset + source.length);
      view.validity := validity;
    }
  }

  /** The `k`-th facade stands for the `k`-th array. */
  ghost predicate Represent(facades: seq<ArrowArrayFacade>, arrays: seq<ArrowArray>)
    reads facades, set f, o | f in facades && o in f.Repr :: o
  {
    && |facades| == |arrays|
    && forall k :: 0 <= k < |facades| ==>
         facades[k] in facades[k].Repr && facades[k].Valid() && facades[k].AsArray() == arrays[k]
  }

  lemma RepresentPush(facades: seq<ArrowArrayFacade>, arrays: seq<ArrowArray>, next: ArrowArrayFacade)
    requires Represent(facades, arrays)
    requires next in next.Repr && next.Valid()
    ensures Represent(facades + [next], arrays + [next.AsArray()])
  {
  }

  lemma {:induction false} FirstErrorStops(a: ArrowArray, s: Schema, inherited: nat, length: nat, n: nat, m: nat)
    requires SchemaShape(s) && Allocated(a, s) && n <= m <= |a.children|
    requires NormalizedChildren(a, s, inherited, length, n).Failure?
    ensures NormalizedChildren(a, s, inherited, length, m) == NormalizedChildren(a, s, inherited, length, n)
    decreases m
  {
    if n < m {
      FirstErrorStops(a, s, inherited, length, n, m - 1);
    }
  }

  lemma NoChildrenYet(a: ArrowArray, s: Schema, inherited: nat, length: nat)
    requires SchemaShape(s) && Allocated(a, s) && SliceCheck(a, inherited, length).None?
    ensures NormalizedChildren(a, s, inherited, length, 0) == Success([])
    ensures Represent([], [])
    ensures a.offset + inherited <= INT64_MAX
  {
  }

  /** What the loop needs to know before and after child `k`. */
  lemma ChildStep(a: ArrowArray, s: Schema, inherited: nat, length: nat, k: nat)
    requires SchemaShape(s) && Allocated(a, s) && k < |a.children|
    ensures k < |s.children| && SchemaShape(s.children[k]) && Allocated(a.children[k], s.children[k])
        && a.children[k] < a
    ensures NormalizedChildren(a, s, inherited, length, k).Success? ==>
              NormalizedChildren(a, s, inherited, length, k + 1) ==
                match ChildView(a, s, inherited, length, k)
                case Success(child) => Success(NormalizedChildren(a, s, inherited, length, k).value + [child])
                case Failure(e) => Failure(e)
    ensures ChildView(a, s, inherited, length, k)
         == Normalized(a.children[k], s.children[k], if IsStruct(s) then a.offset + inherited else 0,
                       if IsStruct(s) then length else a.children[k].length)
    ensures NormalizedChildren(a, s, inherited, length, k + 1).Failure? ==>
              NormalizedChildren(a, s, inherited, length, |a.children|)
                  == NormalizedChildren(a, s, inherited, length, k + 1)
  {
    if NormalizedChildren(a, s, inherited, length, k + 1).Failure? {
      FirstErrorStops(a, s, inherited, length, k + 1, |a.children|);
    }
  }

  /** The child loop: one recursive call and one push per child, up to the first error. */
  method NormalizeChildren(source: ArrowArray, schema: Schema, inheritedOffset: int64, length: int64)
    returns (children: seq<ArrowArrayFacade>, error: Option<SliceError>)
    requires SchemaShape(schema) && Allocated(source, schema) && inheritedOffset >= 0 && length >= 0
    requires SliceCheck(source, inheritedOffset, length).None?
    ensures match NormalizedChildren(source, schema, inheritedOffset, length, |source.children|)
            case Failure(e) => error == Some(e)
            case Success(arrays) => error == None && Represent(children, arrays)
    ensures forall c <- children :: fresh(c) && fresh(c.Repr)
    decreases source, 0
  {
    hide *;
    NoChildrenYet(source, schema, inheritedOffset, length);
    var effectiveOffset: int64 := source.offset + inheritedOffset;
    children, error := [], None;
    ghost var arrays: seq<ArrowArray> := [];
    var i := 0;
    while i < |source.children|
      invariant 0 <= i <= |source.children|
      invariant NormalizedChildren(source, schema, inheritedOffset, length, i) == Success(arrays)
      invariant Represent(children, arrays)
      invariant forall c <- children :: fresh(c) && fresh(c.Repr)
    {
      ChildStep(source, schema, inheritedOffset, length, i);
      var child, childError := Normalize(source.children[i], schema.children[i],
                                         if IsStruct(schema) then effectiveOffset else 0,
                                         if IsStruct(schema) then length else -1);
      if child == null {
        return children, childError;
      }
      RepresentPush(children, arrays, child);
      children := children + [child];
      arrays := arrays + [child.AsArray()];
      i := i + 1;
    }
  }

  method Normalize(source: ArrowArray, schema: Schema, inheritedOffset: int64 := 0, requestedLength: int64 := -1)
    returns (view: ArrowArrayFacade?, error: Option<SliceError>)
    requires SchemaShape(schema) && Allocated(source, schema) && inheritedOffset >= 0
    ensures var length := if requestedLength < 0 then source.length else requestedLength;
            match Normalized(source, schema, inheritedOffset, length)
            case Failure(e) => view == null && error == Some(e)
            case Success(a) => view != null && error == None && fresh(view.Repr) && view.Valid() && view.AsArray() == a
    decreases source, 1
  {
    hide *;
    var length := requestedLength;
    if length < 0 {
      length := source.length;
    }
    ViewParts(source, schema, inheritedOffset, length);
    if source.offset > INT64_MAX - inheritedOffset || inheritedOffset > source.length ||
       length > source.length - inheritedOffset {
      return null, Some(SliceOutsideChild);
    }
    if source.offset + inheritedOffset > INT64_MAX - length {
      return null, Some(SliceOverflows);
    }

    view := NewView(source, schema, inheritedOffset, length);
    var children;
    children, error := NormalizeChildren(source, schema, inheritedOffset, length);
    if error.Some? {
      return null, error;
    }
    var dictionary: ArrowArrayFacade? := null;
    if source.dictionary.ArrowArray? {
      dictionary, error := Normalize(source.dictionary, schema.dictionary);
      if dictionary == null {
        return null, error;
      }
    }
    ghost var arrays := NormalizedChildren(source, schema, inheritedOffset, length, |source.children|).value;
    ghost var repr := {view} + (if view.validity == null then {} else {view.validity})
                    + (set c, o | c in children && o in c.Repr :: o)
                    + (if dictionary == null then {} else dictionary.Repr);
    view.Attach(children, dictionary, arrays, repr);
    view.AsArrayIs(arrays);
  }

  /** How a view is put together from its head, its children and its dictionary. */
  lemma ViewParts(a: ArrowArray, s: Schema, inherited: nat, length: nat)
    requires SchemaShape(s) && Allocated(a, s)
    ensures SliceCheck(a, inherited, length) ==
      if a.offset > INT64_MAX - inherited || inherited > a.length || length > a.length - inherited then
        Some(SliceOutsideChild)
      else if a.offset + inherited > INT64_MAX - length then Some(SliceOverflows)
      else None
    ensures SliceCheck(a, inherited, length).Some? ==>
      Normalized(a, s, inherited, length) == Failure(SliceCheck(a, inherited, length).value)
    ensures a.dictionary.ArrowArray? ==>
              SchemaShape(s.dictionary) && Allocated(a.dictionary, s.dictionary) && a.dictionary < a
    ensures SliceCheck(a, inherited, length).None? ==>
      var head := if IsStruct(s) then StructHead(a, s, inherited, length) else PlainHead(a, s, inherited, length);
      Normalized(a, s, inherited, length) ==
        match NormalizedChildren(a, s, inherited, length, |a.children|)
        case Failure(e) => Failure(e)
        case Success(children) =>
          if a.dictionary.NullArray? then Success(head.(children := children, dictionary := NullArray))
          else
            match Normalized(a.dictionary, s.dictionary, 0, a.dictionary.length)
            case Failure(e) => Failure(e)
            case Success(d) => Success(head.(children := children, dictionary := d))
  {
  }
}
