/**
  Concrete scenarios of the two archives, proved by the verifier: the
  reading pattern of the input archive's documentation, out-of-order and
  missing names, the size of an empty array, the keys the output archive
  synthesizes, and the effect of the fixed-width conversions.
 */
module ArchiveExamples {
  import opened Wrappers
  import opened Stacks
  import opened JsonValues
  import opened JsonOutput
  import opened JsonCursor
  import opened JsonInput
  import opened ArchiveGlue

  /**
    Nine integers saved at the top level, the sixth under the name "hello":
    the others get the synthesized keys value0 ... value7.
   */
  function NineValues(): Json {
    JObject([("value0", JInt(1)), ("value1", JInt(2)), ("value2", JInt(3)), ("value3", JInt(4)),
             ("value4", JInt(5)), ("hello", JInt(6)), ("value5", JInt(7)), ("value6", JInt(8)),
             ("value7", JInt(9))])
  }

  /** The archive reading the top level `fields`, with its cursor at member `pos` and no name pending. */
  ghost predicate ReadingAt(ar: JsonInputArchive, fields: seq<(string, Json)>, pos: nat)
    reads ar
  {
    ar.Valid() && ar.stack == [ObjectCursor(fields, pos)] && ar.nextName == None
  }

  /**
    Three sequential reads, a read by the name "hello" that skips two
    members, and three more sequential reads that resume after it.
   */
  method SkipAndSearch() returns (r: seq<Result<Scalar, InputError>>)
    ensures r == [Success(Int64(1)), Success(Int64(2)), Success(Int64(3)), Success(Int64(6)),
                  Success(Int64(7)), Success(Int64(8)), Success(Int64(9))]
  {
    var archive := JsonInputArchive.Open(NineValues());
    var ar := archive.value;
    var first := ReadFirstThree(ar);
    var fields := NineValues().fields;
    assert FindKey(fields, "hello", 5) == Some(5);
    assert FindKey(fields, "hello", 0) == Some(5);
    var v6 := ReadNamed(ar, fields, 3, "hello");
    var last := ReadLastThree(ar);
    r := first + [v6] + last;
  }

  method ReadFirstThree(ar: JsonInputArchive) returns (r: seq<Result<Scalar, InputError>>)
    requires ReadingAt(ar, NineValues().fields, 0)
    modifies ar
    ensures ReadingAt(ar, NineValues().fields, 3)
    ensures r == [Success(Int64(1)), Success(Int64(2)), Success(Int64(3))]
  {
    var fields := NineValues().fields;
    var v1 := ReadOne(ar, fields, 0);
    var v2 := ReadOne(ar, fields, 1);
    var v3 := ReadOne(ar, fields, 2);
    r := [v1, v2, v3];
  }

  method ReadLastThree(ar: JsonInputArchive) returns (r: seq<Result<Scalar, InputError>>)
    requires ReadingAt(ar, NineValues().fields, 6)
    modifies ar
    ensures ReadingAt(ar, NineValues().fields, 9)
    ensures r == [Success(Int64(7)), Success(Int64(8)), Success(Int64(9))]
  {
    var fields := NineValues().fields;
    var v7 := ReadOne(ar, fields, 6);
    var v8 := ReadOne(ar, fields, 7);
    var v9 := ReadOne(ar, fields, 8);
    r := [v7, v8, v9];
  }

  /** An unnamed read of an integer at member `pos`: its value, and the cursor on the next member. */
  method ReadOne(ar: JsonInputArchive, fields: seq<(string, Json)>, pos: nat) returns (r: Result<Scalar, InputError>)
    requires pos < |fields| && ReadingAt(ar, fields, pos)
    modifies ar
    ensures ReadingAt(ar, fields, if Extract(Int64Kind, fields[pos].1).Success? then pos + 1 else pos)
    ensures r == Extract(Int64Kind, fields[pos].1)
  {
    SequentialLoad(Int64Kind, ObjectCursor(fields, pos));
    r := ar.LoadValue(Int64Kind);
  }

  function ThreeMembers(): Json {
    JObject([("a", JInt(1)), ("b", JInt(2)), ("c", JInt(3))])
  }

  /**
    A read of an integer by a name the level holds, from a position that is
    not on a later member of that name: the first member of that name is
    read, and the cursor is left just after it.
   */
  method ReadNamed(ar: JsonInputArchive, fields: seq<(string, Json)>, pos: nat, name: string) returns (r: Result<Scalar, InputError>)
    requires 0 < |fields| && pos <= |fields| && ReadingAt(ar, fields, pos)
    requires FindKey(fields, name, 0).Some?
    requires Name(ObjectCursor(fields, pos)) == Some(name) ==> FindKey(fields, name, 0) == Some(pos)
    modifies ar
    ensures var i := FindKey(fields, name, 0).value;
            && r == Extract(Int64Kind, fields[i].1)
            && ReadingAt(ar, fields, if r.Success? then i + 1 else i)
  {
    ar.SetNextName(Some(name));
    r := ar.LoadValue(Int64Kind);
  }

  /**
    Reading {a:1, b:2, c:3} by the names c, a, b gives 3, 1, 2, and the next
    unnamed read continues after b's slot, at c.
   */
  method OutOfOrder() returns (r: seq<Result<Scalar, InputError>>)
    ensures r == [Success(Int64(3)), Success(Int64(1)), Success(Int64(2)), Success(Int64(3))]
  {
    var fields := ThreeMembers().fields;
    var archive := JsonInputArchive.Open(ThreeMembers());
    var ar := archive.value;
    assert FindKey(fields, "c", 0) == Some(2);
    assert FindKey(fields, "a", 0) == Some(0);
    assert FindKey(fields, "b", 0) == Some(1);
    var c := ReadNamed(ar, fields, 0, "c");
    var a := ReadNamed(ar, fields, 3, "a");
    var b := ReadNamed(ar, fields, 1, "b");
    var next := ReadOne(ar, fields, 2);
    r := [c, a, b, next];
  }

  /** A name the level does not hold fails the read, and the cursor is left at the end of the level. */
  method MissingField() returns (r: Result<Scalar, InputError>, after: Result<Scalar, InputError>)
    ensures r == Failure(NameNotFound("b"))
    ensures after == Failure(NoMoreObjects)
  {
    var archive := JsonInputArchive.Open(JObject([("a", JInt(1))]));
    var ar := archive.value;
    ar.SetNextName(Some("b"));
    r := ar.LoadValue(Int64Kind);
    after := ar.LoadValue(Int64Kind);
  }

  /** An empty array is entered as a Null_ level whose size is 0. */
  method EmptyArraySize() returns (entered: Outcome<InputError>, size: Result<nat, InputError>)
    ensures entered == Pass && size == Success(0)
  {
    var archive := JsonInputArchive.Open(JObject([("value0", JArray([]))]));
    var ar := archive.value;
    entered := ar.StartNode();
    size := ar.LoadSize();
  }

  /** A name-value pair keeps the synthesized counter where it was: the next unnamed member is value0. */
  method NamedThenUnnamed() returns (events: seq<Event>)
    ensures events == [ObjectOpen, Key("x"), Write(Int(1)), Key("value0"), Write(Int(2)), ObjectClose]
  {
    var items := [Named("x", Leaf(Int(1))), Leaf(Int(2))];
    var owner := Compound(items);
    assert HasValue(items);
    assert MemberKey(items, 0) == "x" && CounterAt(items, 1) == 0;
    assert MemberKey(items, 1) == AutoLabel(0) == "value0";
    assert Members(owner, 1) == [Key("x"), Write(Int(1))];
    assert Members(owner, 2) == [Key("x"), Write(Int(1)), Key("value0"), Write(Int(2))];
    events := Serialize(items);
  }

  /**
    A name set before a value written into an array level is not consumed
    there: it is still pending after the value.
   */
  method NameInArray() returns (events: seq<Event>, pending: Option<string>)
    ensures events == [ArrayOpen, Write(Int(1)), Write(Int(2))]
    ensures pending == Some("x")
  {
    var ar := new JsonOutputArchive();
    ar.MakeArray();
    ar.WriteName();
    ar.SaveValue(Int(1));
    ar.SetNextName(Some("x"));
    ar.WriteName();
    ar.SaveValue(Int(2));
    events, pending := ar.events, ar.nextName;
  }

  /**
    A name left pending on an array level is taken by the next object level:
    `startNode` writes no key into the array, and the child's first key is
    that name.
   */
  method NameEntersChild() returns (events: seq<Event>, pending: Option<string>)
    ensures events == [ArrayOpen, ObjectOpen, Key("x"), Write(Int(1))]
    ensures pending == None
  {
    var ar := new JsonOutputArchive();
    ar.MakeArray();
    ar.SetNextName(Some("x"));
    ar.StartNode();
    ar.WriteName();
    ar.SaveValue(Int(1));
    events, pending := ar.events, ar.nextName;
  }

  /** The extreme 64-bit values survive a round trip with their types. */
  method WideIntegers() returns (r: Result<seq<Item>, InputError>)
    ensures r == Success([Leaf(Uint64(UINT64_LIMIT - 1)), Leaf(Int64(INT64_MIN))])
  {
    var items := [Leaf(Uint64(UINT64_LIMIT - 1)), Leaf(Int64(INT64_MIN))];
    assert HasValue(items);
    r := RoundTrip(items);
  }

  /** A number beyond 32 bits read into a 32-bit unsigned value keeps its low 32 bits. */
  method NarrowUnsigned() returns (r: Scalar)
    ensures r == Uint(5)
  {
    var archive := JsonInputArchive.Open(JArray([JInt(UINT32_LIMIT + 5)]));
    var ar := archive.value;
    var read := ar.LoadValue(KindOf(Uint(0)));
    r := Narrow(Uint(0), read.value);
  }
}
