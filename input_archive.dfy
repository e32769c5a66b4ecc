/**
  The input archive of include/ser20/archives/simdjson.hpp (`JSONInputArchive`).

  The parsed document is immutable; the archive walks it with a stack of
  cursors, one per level being read. A pending name makes the next read look
  its member up by name (rewinding the level when the current member has a
  different name); without one, reads are sequential.
 */
module JsonInput {
  import opened Wrappers
  import opened Stacks
  import opened JsonValues
  import opened JsonCursor

  /** The typed reads, by the simdjson getter they use. */
  datatype ScalarKind = BoolKind | Int64Kind | Uint64Kind | StringKind

  /**
    `get_bool()`, `get_int64()`, `get_uint64()` and `get_string()` followed by
    `.value()`, which throws when the element holds another type or a number
    out of the requested range.
   */
  function Extract(kind: ScalarKind, j: Json): (r: Result<Scalar, InputError>)
    ensures r.Failure? ==> r.error == WrongType
    ensures kind == BoolKind ==> (r.Success? <==> j.JBool?) && (r.Success? ==> r.value == Bool(j.b))
    ensures kind == Int64Kind ==>
              (r.Success? <==> j.JInt? && InInt64Range(j.n)) && (r.Success? ==> r.value == Int64(j.n))
    ensures kind == Uint64Kind ==>
              (r.Success? <==> j.JInt? && InUInt64Range(j.n)) && (r.Success? ==> r.value == Uint64(j.n))
    ensures kind == StringKind ==> (r.Success? <==> j.JString?) && (r.Success? ==> r.value == Str(j.s))
  {
    match kind
    case BoolKind => if j.JBool? then Success(Bool(j.b)) else Failure(WrongType)
    case Int64Kind => if j.JInt? && InInt64Range(j.n) then Success(Int64(j.n)) else Failure(WrongType)
    case Uint64Kind => if j.JInt? && InUInt64Range(j.n) then Success(Uint64(j.n)) else Failure(WrongType)
    case StringKind => if j.JString? then Success(Str(j.s)) else Failure(WrongType)
  }

  /**
    The getter each declared scalar type is read with: the small integers use
    the 64-bit getters. A declared null is read by `LoadNull` instead.
   */
  function KindOf(declared: Scalar): (k: ScalarKind)
    requires !declared.Null?
    ensures k == BoolKind <==> declared.Bool?
    ensures k == Int64Kind <==> declared.Int? || declared.Int64?
    ensures k == Uint64Kind <==> declared.Uint? || declared.Uint64?
    ensures k == StringKind <==> declared.Str?
  {
    match declared
    case Bool(_) => BoolKind
    case Int(_) => Int64Kind
    case Int64(_) => Int64Kind
    case Uint(_) => Uint64Kind
    case Uint64(_) => Uint64Kind
    case Str(_) => StringKind
  }

  /** `static_cast<std::int32_t>` of a 64-bit value: reduction modulo 2^32 into the signed range. */
  function WrapInt32(n: int): (r: Int32)
    ensures (r - n) % UINT32_LIMIT == 0
    ensures INT32_MIN <= n < INT32_LIMIT ==> r == n
  {
    (n - INT32_MIN) % UINT32_LIMIT + INT32_MIN
  }

  /** `static_cast<std::uint32_t>` of a 64-bit value: reduction modulo 2^32. */
  function WrapUInt32(n: int): (r: UInt32)
    ensures (r - n) % UINT32_LIMIT == 0
    ensures 0 <= n < UINT32_LIMIT ==> r == n
  {
    n % UINT32_LIMIT
  }

  /**
    The small-integer overloads store the value read after a `static_cast` to
    the declared type; the other overloads store it as read.
   */
  function Narrow(declared: Scalar, read: Scalar): (r: Scalar)
    ensures declared.Int? && read.Int64? ==> r == Int(WrapInt32(read.i64))
    ensures declared.Uint? && read.Uint64? ==> r == Uint(WrapUInt32(read.u64))
    ensures !declared.Int? && !declared.Uint? ==> r == read
  {
    match declared
    case Int(_) => if read.Int64? then Int(WrapInt32(read.i64)) else read
    case Uint(_) => if read.Uint64? then Uint(WrapUInt32(read.u64)) else read
    case _ => read
  }

  /**
    The archive's private `search()`: the pending name is consumed; when it
    differs from the current key (or there is no current key) the level is
    searched. After a successful resolution with a name the cursor is on a
    member of that name.
   */
  function ResolveName(c: Cursor, pending: Option<string>): (r: (Cursor, Outcome<InputError>))
    requires c.Valid()
    ensures r.0.Valid() && r.0.Rewound() == c.Rewound()
    ensures pending.None? || Name(c) == pending ==> r == (c, Pass)
    ensures pending.Some? && r.1.Pass? ==> Name(r.0) == pending
    ensures pending.Some? && Name(c) != pending && r.1.Pass? ==>
              forall j :: 0 <= j < r.0.pos ==> c.fields[j].0 != pending.value
    ensures r.1.Fail? <==>
              pending.Some? && Name(c) != pending &&
              (!c.ObjectCursor? || forall j :: 0 <= j < |c.fields| ==> c.fields[j].0 != pending.value)
  {
    if pending.None? || Name(c) == pending then (c, Pass) else SearchResult(c, pending.value)
  }

  /** No two members of the level share a key (documents written with distinct names). */
  predicate DistinctKeys(fields: seq<(string, Json)>) {
    forall i, j :: 0 <= i < j < |fields| ==> fields[i].0 != fields[j].0
  }

  /**
    With distinct keys, a name present in the level resolves to its member
    wherever the cursor stands: members can be read by name in any order.
   */
  lemma ResolveDistinctKey(c: Cursor, name: string)
    requires c.ObjectCursor? && c.Valid() && DistinctKeys(c.fields)
    requires FindKey(c.fields, name, 0).Some?
    ensures ResolveName(c, Some(name)) == (ObjectCursor(c.fields, FindKey(c.fields, name, 0).value), Pass)
  {
    var i := FindKey(c.fields, name, 0).value;
    if Name(c) == Some(name) {
      assert c.fields[c.pos].0 == c.fields[i].0;
    } else {
      assert c.fields[i].0 == name;
    }
  }

  /**
    A scalar `loadValue`: resolve the name, read the element at the position
    with the requested getter, and advance by exactly one. Any failure leaves
    the cursor where the name resolution put it.
   */
  function LoadResult(kind: ScalarKind, c: Cursor, pending: Option<string>): (r: (Cursor, Result<Scalar, InputError>))
    requires c.Valid()
    ensures r.0.Valid() && r.0.Rewound() == c.Rewound()
    ensures r.1.Success? ==>
              var at := ResolveName(c, pending).0;
              && Value(at).Success? && Extract(kind, Value(at).value) == r.1
              && r.0 == Advance(at) && r.0.pos == at.pos + 1
    ensures r.1.Success? && pending.Some? ==> c.ObjectCursor? && c.fields[r.0.pos - 1].0 == pending.value
    ensures r.1.Failure? ==> r.0 == ResolveName(c, pending).0
    ensures var (at, resolved) := ResolveName(c, pending);
            r.1.Success? <==> resolved.Pass? && IsValid(at) && Extract(kind, Value(at).value).Success?
    ensures var (at, resolved) := ResolveName(c, pending);
            && (resolved.Fail? ==> r.1 == Failure(resolved.error))
            && (resolved.Pass? && Value(at).Failure? ==> r.1 == Failure(Value(at).error))
            && (resolved.Pass? && Value(at).Success? && r.1.Failure? ==> r.1 == Extract(kind, Value(at).value))
  {
    var (at, resolved) := ResolveName(c, pending);
    if resolved.Fail? then
      (at, Failure(resolved.error))
    else
      match Value(at)
      case Failure(e) => (at, Failure(e))
      case Success(j) =>
        match Extract(kind, j)
        case Failure(e) => (at, Failure(e))
        case Success(v) => (Advance(at), Success(v))
  }

  /** Without a pending name a read takes the element at the position and moves one step on. */
  lemma SequentialLoad(kind: ScalarKind, c: Cursor)
    requires c.Valid() && IsValid(c)
    ensures LoadResult(kind, c, None) ==
              if Extract(kind, Value(c).value).Success? then (Advance(c), Extract(kind, Value(c).value))
              else (c, Extract(kind, Value(c).value))
  {
  }

  /** A cursor `child` was pushed for the container at `parent`'s position. */
  ghost predicate Nested(parent: Cursor, child: Cursor) {
    && Value(parent).Success?
    && Value(parent).value.IsContainer()
    && child.Rewound() == Over(Value(parent).value)
  }

  /**
    The cursor stack is a path into the document: the bottom cursor ranges
    over the root, and each cursor above it over the container at the position
    of the cursor below.
   */
  ghost predicate PathInto(doc: Json, stack: seq<Cursor>) {
    && doc.IsContainer()
    && (forall i :: 0 <= i < |stack| ==> stack[i].Valid())
    && (|stack| > 0 ==> stack[0].Rewound() == Over(doc))
    && (forall i :: 0 < i < |stack| ==> Nested(stack[i - 1], stack[i]))
  }

  lemma PathRetarget(doc: Json, stack: seq<Cursor>, c: Cursor)
    requires |stack| > 0 && PathInto(doc, stack)
    requires c.Valid() && c.Rewound() == Last(stack).Rewound()
    ensures PathInto(doc, WithTop(stack, c))
  {
    var s' := WithTop(stack, c);
    forall i | 0 < i < |s'|
      ensures Nested(s'[i - 1], s'[i])
    {
      assert s'[i - 1] == stack[i - 1];
      assert Nested(stack[i - 1], stack[i]);
    }
  }

  lemma PathPush(doc: Json, stack: seq<Cursor>)
    requires |stack| > 0 && PathInto(doc, stack)
    requires Value(Last(stack)).Success? && Value(Last(stack)).value.IsContainer()
    ensures PathInto(doc, stack + [Over(Value(Last(stack)).value)])
  {
    var s' := stack + [Over(Value(Last(stack)).value)];
    forall i | 0 < i < |s'|
      ensures Nested(s'[i - 1], s'[i])
    {
      if i < |stack| {
        assert Nested(stack[i - 1], stack[i]);
      }
    }
  }

  lemma PathPop(doc: Json, stack: seq<Cursor>)
    requires |stack| > 0 && PathInto(doc, stack)
    ensures PathInto(doc, Pop(stack))
  {
    var s' := Pop(stack);
    forall i | 0 < i < |s'|
      ensures Nested(s'[i - 1], s'[i])
    {
      assert Nested(stack[i - 1], stack[i]);
    }
  }

  /** On a path, the container below the top holds exactly as many children as the top cursor ranges over. */
  lemma PathParentSize(doc: Json, stack: seq<Cursor>)
    requires |stack| > 1 && PathInto(doc, stack)
    ensures Value(stack[|stack| - 2]).Success? && Value(stack[|stack| - 2]).value.IsContainer()
    ensures Value(stack[|stack| - 2]).value.ChildCount() == Last(stack).Count()
  {
    assert Nested(stack[|stack| - 2], stack[|stack| - 1]);
  }

  class JsonInputArchive {
    /** `itsDocument`, the parsed tree. */
    const document: Json
    /** `itsIteratorStack`, top last. */
    var stack: seq<Cursor>
    /** `itsNextName`; None is the null pointer. */
    var nextName: Option<string>

    ghost predicate Valid()
      reads this
    {
      PathInto(document, stack)
    }

    function Top(): Cursor
      reads this
      requires |stack| > 0
    {
      Last(stack)
    }

    /** The constructors after parsing: `Init` pushes one cursor over the root. */
    constructor FromDocument(doc: Json)
      requires doc.IsContainer()
      ensures Valid()
      ensures document == doc && stack == [Over(doc)] && nextName == None
    {
      document := doc;
      stack := [Over(doc)];
      nextName := None;
    }

    /** `Init`: a root that is neither an array nor an object is refused. */
    static method Open(doc: Json) returns (r: Result<JsonInputArchive, InputError>)
      ensures r.Failure? <==> !doc.IsContainer()
      ensures r.Failure? ==> r.error == RootNotContainer
      ensures r.Success? ==> fresh(r.value) && r.value.Valid()
      ensures r.Success? ==> r.value.document == doc && r.value.stack == [Over(doc)] && r.value.nextName == None
    {
      if !doc.IsContainer() {
        return Failure(RootNotContainer);
      }
      var ar := new JsonInputArchive.FromDocument(doc);
      return Success(ar);
    }

    /** `getNodeName()`: the key at the current position of the current level, if any. */
    function GetNodeName(): (r: Option<string>)
      reads this
      requires |stack| > 0
      ensures r.Some? <==> Top().ObjectCursor? && Top().pos < |Top().fields|
      ensures r.Some? ==> r.value == Top().fields[Top().pos].0
    {
      Name(Top())
    }

    /** Sets the name filter for the next read. */
    method SetNextName(name: Option<string>)
      modifies this
      ensures nextName == name && stack == old(stack)
    {
      nextName := name;
    }

    /** The private `search()`: consumes the pending name and moves the top cursor as `ResolveName` says. */
    method Resolve() returns (outcome: Outcome<InputError>)
      requires Valid() && |stack| > 0
      modifies this
      ensures Valid() && nextName == None
      ensures stack == WithTop(old(stack), ResolveName(old(Top()), old(nextName)).0)
      ensures outcome == ResolveName(old(Top()), old(nextName)).1
    {
      var localNextName := nextName;
      nextName := None;
      if localNextName.Some? {
        var actualName := Name(Top());
        if actualName.None? || actualName.value != localNextName.value {
          var c, searched := Search(Top(), localNextName.value);
          PathRetarget(document, stack, c);
          stack := WithTop(stack, c);
          return searched;
        }
      }
      assert WithTop(stack, Top()) == stack;
      return Pass;
    }

    /**
      Enters the value at the (resolved) position: pushes a cursor over its
      children without moving the parent. A scalar there is refused.
     */
    method StartNode() returns (outcome: Outcome<InputError>)
      requires Valid() && |stack| > 0
      modifies this
      ensures Valid() && nextName == None
      ensures var (at, resolved) := ResolveName(old(Top()), old(nextName));
              var base := WithTop(old(stack), at);
              if resolved.Fail? then outcome == resolved && stack == base
              else if Value(at).Failure? then outcome == Fail(Value(at).error) && stack == base
              else if !Value(at).value.IsContainer() then outcome == Fail(NotContainer) && stack == base
              else outcome == Pass && stack == base + [Over(Value(at).value)]
    {
      outcome := Resolve();
      if outcome.Fail? {
        return;
      }
      var currentValue := Value(Top());
      if currentValue.Failure? {
        return Fail(currentValue.error);
      }
      if currentValue.value.IsContainer() {
        PathPush(document, stack);
        stack := stack + [Over(currentValue.value)];
      } else {
        outcome := Fail(NotContainer);
      }
    }

    /** Leaves the current level: pops its cursor and advances the parent by exactly one. */
    method FinishNode()
      requires Valid() && |stack| > 0
      modifies this
      ensures Valid() && nextName == old(nextName)
      ensures |old(stack)| == 1 ==> stack == []
      ensures |old(stack)| > 1 ==> stack == WithTop(Pop(old(stack)), Advance(Last(Pop(old(stack)))))
    {
      PathPop(document, stack);
      stack := Pop(stack);
      if |stack| > 0 {
        PathRetarget(document, stack, Advance(Top()));
        stack := WithTop(stack, Advance(Top()));
      }
    }

    /** The scalar `loadValue` overloads. */
    method LoadValue(kind: ScalarKind) returns (r: Result<Scalar, InputError>)
      requires Valid() && |stack| > 0
      modifies this
      ensures Valid() && nextName == None
      ensures stack == WithTop(old(stack), LoadResult(kind, old(Top()), old(nextName)).0)
      ensures r == LoadResult(kind, old(Top()), old(nextName)).1
    {
      var resolved := Resolve();
      if resolved.Fail? {
        return Failure(resolved.error);
      }
      var current := Value(Top());
      if current.Failure? {
        return Failure(current.error);
      }
      r := Extract(kind, current.value);
      if r.Success? {
        PathRetarget(document, stack, Advance(Top()));
        stack := WithTop(stack, Advance(Top()));
      }
    }

    /**
      The `nullptr` load: the name is resolved and the cursor advanced; the
      element itself is only checked by an assertion that may be compiled out.
     */
    method LoadNull() returns (outcome: Outcome<InputError>)
      requires Valid() && |stack| > 0
      modifies this
      ensures Valid() && nextName == None
      ensures var (at, resolved) := ResolveName(old(Top()), old(nextName));
              outcome == resolved &&
              stack == WithTop(old(stack), if resolved.Pass? then Advance(at) else at)
    {
      outcome := Resolve();
      if outcome.Pass? {
        PathRetarget(document, stack, Advance(Top()));
        stack := WithTop(stack, Advance(Top()));
      }
    }

    /**
      `loadSize`: the child count of the root at depth 1, otherwise of the
      value at the parent cursor's position. On a path into the document both
      are the size of the level being read.
     */
    method LoadSize() returns (r: Result<nat, InputError>)
      requires Valid() && |stack| > 0
      ensures r == Success(Top().Count())
    {
      if |stack| == 1 {
        r := Success(document.ChildCount());
      } else {
        PathParentSize(document, stack);
        var parentValue := Value(stack[|stack| - 2]);
        if parentValue.Success? && parentValue.value.IsContainer() {
          r := Success(parentValue.value.ChildCount());
        } else {
          r := Failure(ParentNotContainer);
        }
      }
    }

    /**
      `loadBinaryValue`: reads a string (under the given name, if any), decodes
      it and refuses it before any copy when the decoded length is not `size`.
     */
    method LoadBinaryValue(size: nat, name: Option<string>, decode: string -> seq<Byte>)
      returns (r: Result<seq<Byte>, InputError>)
      requires Valid() && |stack| > 0
      modifies this
      ensures Valid() && nextName == None
      ensures var (c, text) := LoadResult(StringKind, old(Top()), name);
              && stack == WithTop(old(stack), c)
              && (text.Failure? ==> r == Failure(text.error))
              && (text.Success? && |decode(text.value.s)| != size ==> r == Failure(SizeMismatch))
              && (text.Success? && |decode(text.value.s)| == size ==> r == Success(decode(text.value.s)))
    {
      SetNextName(name);
      var encoded := LoadValue(StringKind);
      if encoded.Failure? {
        return Failure(encoded.error);
      }
      var decoded := decode(encoded.value.s);
      if size != |decoded| {
        return Failure(SizeMismatch);
      }
      r := Success(decoded);
      nextName := None;
    }
  }
}
