/**
  The `Iterator` class nested in `JSONInputArchive`: a bounded position in one
  level of the parsed document. The archive keeps its iterators by value in a
  `std::vector`, so a cursor is a value here and every operation that moves it
  returns the moved cursor.
 */
module JsonCursor {
  import opened Wrappers
  import opened JsonValues

  /** The exceptions the input archive throws. */
  datatype InputError =
    | ParseFailed           // "Failed to parse JSON: ..."
    | RootNotContainer      // "JSON root element is not an object or array"
    | NoMoreObjects         // "No more objects in input"
    | NullIterator          // "internal error: null or empty iterator to object or array!"
    | NotAnObject           // "Cannot search for a name in a non-object JSON node"
    | NameNotFound(name: string) // "provided NVP (...) not found"
    | WrongType             // the element does not hold the requested type
    | NotContainer          // "Current JSON node is neither an array nor an object"
    | ParentNotContainer    // "Parent JSON node is neither an array nor an object"
    | SizeMismatch          // "Decoded binary data size does not match specified size"

  /**
    `Type::Array` and `Type::Object` cursors range over the children of a
    non-empty container; `pos` is the current position, and `pos` equal to the
    child count is the end. `Type::Null_` is the cursor built over an empty
    container (or by the default constructor).
   */
  datatype Cursor =
    | ArrayCursor(elems: seq<Json>, pos: nat)
    | ObjectCursor(fields: seq<(string, Json)>, pos: nat)
    | NullCursor
  {
    /** The number of children the cursor ranges over. */
    function Count(): nat {
      match this
      case ArrayCursor(elems, _) => |elems|
      case ObjectCursor(fields, _) => |fields|
      case NullCursor => 0
    }

    /** What the constructors establish and every operation keeps. */
    ghost predicate Valid() {
      NullCursor? || (0 < Count() && pos <= Count())
    }

    /** The same level with the position moved back to its beginning. */
    function Rewound(): (c: Cursor)
      ensures c.Count() == Count() && c.NullCursor? == NullCursor?
    {
      match this
      case ArrayCursor(elems, _) => ArrayCursor(elems, 0)
      case ObjectCursor(fields, _) => ObjectCursor(fields, 0)
      case NullCursor => NullCursor
    }
  }

  /** The array constructor: an empty array gives a Null_ cursor, any other starts at its first element. */
  function OverArray(elems: seq<Json>): (c: Cursor)
    ensures c.Valid() && c.Count() == |elems|
    ensures c.NullCursor? <==> elems == []
    ensures c.ArrayCursor? ==> c.elems == elems && c.pos == 0
  {
    if elems == [] then NullCursor else ArrayCursor(elems, 0)
  }

  /** The object constructor: an empty object gives a Null_ cursor, any other starts at its first member. */
  function OverObject(fields: seq<(string, Json)>): (c: Cursor)
    ensures c.Valid() && c.Count() == |fields|
    ensures c.NullCursor? <==> fields == []
    ensures c.ObjectCursor? ==> c.fields == fields && c.pos == 0
  {
    if fields == [] then NullCursor else ObjectCursor(fields, 0)
  }

  /** The cursor the archive pushes for a container value. */
  function Over(j: Json): (c: Cursor)
    requires j.IsContainer()
    ensures c.Valid() && c.Count() == j.ChildCount() && c.Rewound() == c
  {
    if j.JArray? then OverArray(j.elems) else OverObject(j.fields)
  }

  /** `operator++`: one step forward, never past the end, and nothing on a Null_ cursor. */
  function Advance(c: Cursor): (r: Cursor)
    requires c.Valid()
    ensures r.Valid() && r.Rewound() == c.Rewound()
    ensures !c.NullCursor? && c.pos < c.Count() ==> r.pos == c.pos + 1
    ensures c.NullCursor? || c.pos == c.Count() ==> r == c
  {
    match c
    case ArrayCursor(elems, pos) => if pos < |elems| then ArrayCursor(elems, pos + 1) else c
    case ObjectCursor(fields, pos) => if pos < |fields| then ObjectCursor(fields, pos + 1) else c
    case NullCursor => c
  }

  /** `isValid()`: the cursor is on an element; a null cursor never is. */
  predicate IsValid(c: Cursor): (b: bool)
    ensures b <==> (c.ArrayCursor? && c.pos < |c.elems|) || (c.ObjectCursor? && c.pos < |c.fields|)
  {
    !c.NullCursor? && c.pos < c.Count()
  }

  /**
    `value()`: the element at the position. An exhausted cursor fails first
    with "no more objects"; a Null_ cursor fails with the internal error.
   */
  function Value(c: Cursor): (r: Result<Json, InputError>)
    ensures r.Success? <==> IsValid(c)
    ensures c.NullCursor? ==> r == Failure(NullIterator)
    ensures !c.NullCursor? && c.pos >= c.Count() ==> r == Failure(NoMoreObjects)
    ensures c.ArrayCursor? && r.Success? ==> r.value == c.elems[c.pos]
    ensures c.ObjectCursor? && r.Success? ==> r.value == c.fields[c.pos].1
  {
    match c
    case ArrayCursor(elems, pos) => if pos < |elems| then Success(elems[pos]) else Failure(NoMoreObjects)
    case ObjectCursor(fields, pos) => if pos < |fields| then Success(fields[pos].1) else Failure(NoMoreObjects)
    case NullCursor => Failure(NullIterator)
  }

  /**
    Being valid is what makes the other operations act: a valid cursor is
    one that `++` moves and whose `value()` succeeds.
   */
  lemma ValidMeansMovable(c: Cursor)
    requires c.Valid()
    ensures IsValid(c) <==> Advance(c) != c
    ensures IsValid(c) <==> Value(c).Success?
  {
  }

  /** `name()`: the key at the position, only for an object cursor that is not exhausted. */
  function Name(c: Cursor): (r: Option<string>)
    ensures r.Some? <==> c.ObjectCursor? && IsValid(c)
    ensures r.Some? ==> r.value == c.fields[c.pos].0
  {
    if c.ObjectCursor? && c.pos < |c.fields| then Some(c.fields[c.pos].0) else None
  }

  /** The first position at or after `from` whose key is `name`. */
  function FindKey(fields: seq<(string, Json)>, name: string, from: nat): (r: Option<nat>)
    requires from <= |fields|
    ensures r.Some? ==> from <= r.value < |fields| && fields[r.value].0 == name
    ensures r.Some? ==> forall j :: from <= j < r.value ==> fields[j].0 != name
    ensures r.None? ==> forall j :: from <= j < |fields| ==> fields[j].0 != name
    decreases |fields| - from
  {
    if from == |fields| then None
    else if fields[from].0 == name then Some(from)
    else FindKey(fields, name, from + 1)
  }

  /**
    What `search(name)` leaves behind: only an object cursor can be searched;
    it is rewound and stops at the first member named `name`, or at the end
    when there is none.
   */
  function SearchResult(c: Cursor, name: string): (r: (Cursor, Outcome<InputError>))
    requires c.Valid()
    ensures r.0.Valid() && r.0.Rewound() == c.Rewound()
    ensures !c.ObjectCursor? ==> r == (c, Fail(NotAnObject))
    ensures c.ObjectCursor? ==>
              (r.1.Pass? <==> exists j :: 0 <= j < |c.fields| && c.fields[j].0 == name)
    ensures r.1.Pass? ==> Name(r.0) == Some(name)
    ensures r.1.Pass? ==> forall j :: 0 <= j < r.0.pos ==> c.fields[j].0 != name
    ensures c.ObjectCursor? && r.1.Fail? ==> r.0.pos == |c.fields| && r.1 == Fail(NameNotFound(name))
  {
    if !c.ObjectCursor? then
      (c, Fail(NotAnObject))
    else
      match FindKey(c.fields, name, 0)
      case Some(i) => (ObjectCursor(c.fields, i), Pass)
      case None => (ObjectCursor(c.fields, |c.fields|), Fail(NameNotFound(name)))
  }

  /** `Iterator::search`: the rewind and the linear scan of the source. */
  method Search(c: Cursor, name: string) returns (r: Cursor, outcome: Outcome<InputError>)
    requires c.Valid()
    ensures (r, outcome) == SearchResult(c, name)
  {
    if !c.ObjectCursor? {
      return c, Fail(NotAnObject);
    }
    var current := 0;  // rewind to the beginning of the level
    while current < |c.fields|
      invariant 0 <= current <= |c.fields|
      invariant forall j :: 0 <= j < current ==> c.fields[j].0 != name
    {
      if c.fields[current].0 == name {
        return ObjectCursor(c.fields, current), Pass;
      }
      current := current + 1;
    }
    return ObjectCursor(c.fields, current), Fail(NameNotFound(name));
  }
}
