/** Exactly which Arrow schemas and arrays the import accepts, level by level. */
module ArrowAcceptance {
  import opened Wrappers
  import opened ArrowData
  import opened ArrowValidation
  import ArrowMetadata

  /** One pointer followed inside a schema or an array. */
  datatype Move = ToChild(k: nat) | ToDictionary

  /** The schema that a path of pointers leads to, if any. */
  function SchemaAt(s: Schema, path: seq<Move>): Schema
    decreases |path|
  {
    if path == [] || s.NullSchema? then s else SchemaAt(NextSchema(s, path[0]), path[1..])
  }

  function NextSchema(s: Schema, move: Move): Schema
    requires s.Schema?
  {
    match move
    case ToChild(k) => if k < |s.children| then s.children[k] else NullSchema
    case ToDictionary => s.dictionary
  }

  function ArrayAt(a: ArrowArray, path: seq<Move>): ArrowArray
    decreases |path|
  {
    if path == [] || a.NullArray? then a else ArrayAt(NextArray(a, path[0]), path[1..])
  }

  function NextArray(a: ArrowArray, move: Move): ArrowArray
    requires a.ArrowArray?
  {
    match move
    case ToChild(k) => if k < |a.children| then a.children[k] else NullArray
    case ToDictionary => a.dictionary
  }

  /** What the interface demands of one schema structure. */
  predicate SchemaLevel(s: Schema)
    requires s.Schema?
  {
    && !s.released && s.format.Some?
    && 0 <= s.nChildren <= 65536 && (s.nChildren > 0 ==> s.hasChildren)
    && (s.metadata.Some? ==> ArrowMetadata.Extent(s.metadata.value).Success?)
    && forall k :: 0 <= k < |s.children| ==> s.children[k] != NullSchema
  }

  /** What it demands of one array structure with its schema; a null count of -1 is one that
      the producer did not compute. */
  predicate ArrayLevel(a: ArrowArray, s: Schema)
    requires a.ArrowArray?
  {
    && s.Schema? && !a.released
    && 0 <= a.length && 0 <= a.offset && a.offset + a.length <= 0x7fff_ffff_ffff_ffff
    && -1 <= a.nullCount <= a.length
    && 0 <= a.nBuffers <= 65536 && (a.nBuffers > 0 ==> a.hasBuffers)
    && a.nChildren == s.nChildren && (a.nChildren > 0 ==> a.hasChildren)
    && (a.dictionary == NullArray <==> s.dictionary == NullSchema)
    && (forall k :: 0 <= k < |a.children| ==> a.children[k] != NullArray)
    && (s.format == Some("+s") ==>
          && a.nBuffers == 1 && (a.nullCount > 0 ==> a.buffers != [] && a.buffers[0].Some?)
          && forall k :: 0 <= k < |a.children| ==>
               a.children[k].ArrowArray? && a.offset + a.length <= a.children[k].length)
  }

  /** The structure that the path leads to, if any, may be there. */
  predicate SchemaFits(s: Schema, path: seq<Move>, depth: nat) {
    SchemaAt(s, path).Schema? ==> depth + |path| <= 128 && SchemaLevel(SchemaAt(s, path))
  }

  predicate ArrayFits(a: ArrowArray, s: Schema, path: seq<Move>, depth: nat) {
    ArrayAt(a, path).ArrowArray? ==> depth + |path| <= 128 && ArrayLevel(ArrayAt(a, path), SchemaAt(s, path))
  }

  ghost predicate AcceptableSchema(s: Schema, depth: nat) {
    forall path :: SchemaFits(s, path, depth)
  }

  ghost predicate AcceptableArray(a: ArrowArray, s: Schema, depth: nat) {
    forall path :: ArrayFits(a, s, path, depth)
  }

  lemma SchemaMoves(s: Schema, path: seq<Move>, depth: nat)
    requires s.Schema?
    ensures SchemaFits(s, path, depth) <==>
              if path == [] then depth <= 128 && SchemaLevel(s)
              else SchemaFits(NextSchema(s, path[0]), path[1..], depth + 1)
  {
    hide SchemaLevel;
  }

  lemma AcceptableSchemaMoves(s: Schema, depth: nat)
    requires s.Schema?
    ensures AcceptableSchema(s, depth) <==>
              && depth <= 128 && SchemaLevel(s) && AcceptableSchema(s.dictionary, depth + 1)
              && forall k :: 0 <= k < |s.children| ==> AcceptableSchema(s.children[k], depth + 1)
  {
    hide SchemaFits, SchemaLevel;
    SchemaMoves(s, [], depth);
    if AcceptableSchema(s, depth) {
      assert SchemaFits(s, [], depth);
      SchemaAfterMove(s, ToDictionary, depth);
      forall k | 0 <= k < |s.children| ensures AcceptableSchema(s.children[k], depth + 1) {
        SchemaAfterMove(s, ToChild(k), depth);
      }
    } else {
      var path :| !SchemaFits(s, path, depth);
      SchemaMoves(s, path, depth);
      NothingIsAcceptable(depth + 1);
      assert path != [] ==> !AcceptableSchema(NextSchema(s, path[0]), depth + 1);
    }
  }

  lemma SchemaAfterMove(s: Schema, move: Move, depth: nat)
    requires s.Schema? && AcceptableSchema(s, depth)
    ensures AcceptableSchema(NextSchema(s, move), depth + 1)
  {
    hide SchemaFits;
    var next, deeper := NextSchema(s, move), depth + 1;
    forall path ensures SchemaFits(next, path, deeper) {
      SchemaMoves(s, [move] + path, depth);
      assert ([move] + path)[1..] == path && SchemaFits(s, [move] + path, depth);
    }
  }

  lemma NothingIsAcceptable(depth: nat)
    ensures AcceptableSchema(NullSchema, depth)
    ensures forall s :: AcceptableArray(NullArray, s, depth)
  {}

  /** A schema is accepted exactly when every structure in it, on every path of pointers, is
      unreleased, has a format, at most 65536 children, all there, and readable metadata, and
      lies at most 128 pointers deep. */
  lemma {:induction false} SchemaAcceptance(s: Schema, depth: nat)
    requires s.Schema? && SchemaPointers(s)
    ensures ValidateSchema(s, depth) <==> AcceptableSchema(s, depth)
    decreases s
  {
    hide AcceptableSchema;
    AcceptableSchemaMoves(s, depth);
    NothingIsAcceptable(depth + 1);
    forall k | 0 <= k < |s.children| && s.children[k].Schema?
      ensures ValidateSchema(s.children[k], depth + 1) <==> AcceptableSchema(s.children[k], depth + 1)
    {
      SchemaAcceptance(s.children[k], depth + 1);
    }
    if s.dictionary.Schema? {
      SchemaAcceptance(s.dictionary, depth + 1);
    }
  }

  lemma ArrayMoves(a: ArrowArray, s: Schema, path: seq<Move>, depth: nat)
    requires a.ArrowArray?
    ensures ArrayFits(a, s, path, depth) <==>
              if path == [] then depth <= 128 && ArrayLevel(a, s)
              else
                var next := if s.Schema? then NextSchema(s, path[0]) else s;
                ArrayFits(NextArray(a, path[0]), next, path[1..], depth + 1)
  {
    hide ArrayLevel;
  }

  lemma AcceptableArrayMoves(a: ArrowArray, s: Schema, depth: nat)
    requires a.ArrowArray? && s.Schema? && |a.children| <= |s.children|
    ensures AcceptableArray(a, s, depth) <==>
              && depth <= 128 && ArrayLevel(a, s) && AcceptableArray(a.dictionary, s.dictionary, depth + 1)
              && forall k :: 0 <= k < |a.children| ==> AcceptableArray(a.children[k], s.children[k], depth + 1)
  {
    hide ArrayFits, ArrayLevel;
    ArrayMoves(a, s, [], depth);
    if AcceptableArray(a, s, depth) {
      assert ArrayFits(a, s, [], depth);
      ArrayAfterMove(a, s, ToDictionary, depth);
      forall k | 0 <= k < |a.children| ensures AcceptableArray(a.children[k], s.children[k], depth + 1) {
        ArrayAfterMove(a, s, ToChild(k), depth);
      }
    } else {
      var path :| !ArrayFits(a, s, path, depth);
      ArrayMoves(a, s, path, depth);
      NothingIsAcceptable(depth + 1);
      assert path != [] ==> !AcceptableArray(NextArray(a, path[0]), NextSchema(s, path[0]), depth + 1);
    }
  }

  lemma ArrayAfterMove(a: ArrowArray, s: Schema, move: Move, depth: nat)
    requires a.ArrowArray? && s.Schema? && AcceptableArray(a, s, depth)
    ensures AcceptableArray(NextArray(a, move), NextSchema(s, move), depth + 1)
  {
    hide ArrayFits;
    var next, nextSchema, deeper := NextArray(a, move), NextSchema(s, move), depth + 1;
    forall path ensures ArrayFits(next, nextSchema, path, deeper) {
      ArrayMoves(a, s, [move] + path, depth);
      assert ([move] + path)[1..] == path && ArrayFits(a, s, [move] + path, depth);
    }
  }

  /** An array is accepted exactly when every structure in it, on every path of pointers, agrees
      with its schema, keeps its counts and pointers in range, contains the slice its parent
      struct hands down, and lies at most 128 pointers deep. */
  lemma {:induction false} ArrayAcceptance(a: ArrowArray, s: Schema, depth: nat)
    requires a.ArrowArray? && SchemaShape(s) && ArrayPointers(a, s)
    ensures ValidateArray(a, s, depth) <==> AcceptableArray(a, s, depth)
    decreases a
  {
    hide AcceptableArray;
    if |a.children| > |s.children| {
      RejectedChildren(a, s, depth);
    } else {
      AcceptableArrayMoves(a, s, depth);
      NothingIsAcceptable(depth + 1);
      forall k | 0 <= k < |a.children| && a.children[k].ArrowArray?
        ensures ValidateArray(a.children[k], s.children[k], depth + 1) <==>
                  AcceptableArray(a.children[k], s.children[k], depth + 1)
      {
        ArrayAcceptance(a.children[k], s.children[k], depth + 1);
      }
      if a.dictionary.ArrowArray? && s.dictionary.Schema? {
        ArrayAcceptance(a.dictionary, s.dictionary, depth + 1);
      }
    }
  }

  lemma RejectedChildren(a: ArrowArray, s: Schema, depth: nat)
    requires a.ArrowArray? && SchemaShape(s) && ArrayPointers(a, s) && |a.children| > |s.children|
    ensures !ValidateArray(a, s, depth) && !AcceptableArray(a, s, depth)
  {
    hide ArrayFits;
    ArrayMoves(a, s, [], depth);
    assert ArrayFits(a, s, [], depth) ==> ArrayLevel(a, s);
  }
}
