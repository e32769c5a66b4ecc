/**
  The prologue, epilogue and save/load functions of
  include/ser20/archives/simdjson.hpp that connect the archives to the outer
  serialization framework, modelled as a driver over the shapes the framework
  hands an archive:

  - an arithmetic value, a string or `nullptr` (a `Leaf`): the output prologue
    calls `writeName`, the save calls `saveValue`; the load calls `loadValue`;
  - a `NameValuePair` (`Named`): prologue and epilogue do nothing, the
    save/load sets the next name and archives the wrapped value;
  - a `SizeTag`: the output prologue calls `makeArray`, the save writes
    nothing; the load calls `loadSize`;
  - any other type (`Compound`): the prologue calls `startNode`, the type's own
    serialize function archives its `items`, the epilogue calls `finishNode`.

  On top of the driver sit the three halves of a round trip: what the output
  archive writes for a value, what the writer calls parse to, and what the
  input archive reads back from that document.
 */
module ArchiveGlue {
  import opened Wrappers
  import opened Stacks
  import opened JsonValues
  import opened JsonOutput
  import opened JsonCursor
  import opened JsonInput

  datatype Item =
    | Leaf(value: Scalar)
    | Named(name: string, item: Item)
    | SizeTag(size: nat)
    | Compound(items: seq<Item>)

  /** The pending name when the value under the name-value pairs starts: the innermost pair wins. */
  function EffectiveName(item: Item, pending: Option<string>): Option<string> {
    match item
    case Named(n, inner) => EffectiveName(inner, Some(n))
    case _ => pending
  }

  /** A level whose first item is a size tag is written as a JSON array. */
  predicate IsArrayBody(items: seq<Item>) {
    |items| > 0 && items[0].SizeTag?
  }

  /**
    The shapes the framework produces for its containers: a size tag comes
    first in its level, no name-value pair stands directly in an array level,
    and a size tag is never a value. This is all the output side relies on.
   */
  predicate Shaped(item: Item, inArray: bool) {
    match item
    case Leaf(_) => true
    case Named(_, inner) => !inArray && Shaped(inner, false)
    case SizeTag(_) => false
    case Compound(items) =>
      if IsArrayBody(items) then
        forall k :: 1 <= k < |items| ==> Shaped(items[k], true)
      else
        forall k :: 0 <= k < |items| ==> Shaped(items[k], false)
  }

  /**
    Every size tag counts the elements after it. The output writes no call
    for a size tag; only reading it back relies on the count.
   */
  predicate Counted(item: Item) {
    match item
    case Named(_, inner) => Counted(inner)
    case Compound(items) =>
      && (IsArrayBody(items) ==> items[0].size == |items| - 1)
      && forall k :: 0 <= k < |items| ==> Counted(items[k])
    case _ => true
  }

  /** A value of a framework shape whose size tags are correct: what the input side reads back. */
  predicate WellFormed(item: Item, inArray: bool) {
    Shaped(item, inArray) && Counted(item)
  }

  /** The counter of an object level after its first `k` items. */
  function CounterAt(items: seq<Item>, k: nat): UInt32
    requires k <= |items|
  {
    if k == 0 then 0 else CounterAfterName(InObject, EffectiveName(items[k - 1], None), CounterAt(items, k - 1))
  }

  /** The key item `k` of an object level gets. */
  function MemberKey(items: seq<Item>, k: nat): string
    requires k < |items|
  {
    KeyFor(EffectiveName(items[k], None), CounterAt(items, k))
  }

  // ---------------------------------------------------------------------
  // The expected output: the writer calls for a value after its key, and the
  // document they stand for.
  // ---------------------------------------------------------------------

  function Body(item: Item): seq<Event>
    decreases item, if item.Compound? then |item.items| + 1 else 0
  {
    match item
    case Leaf(v) => [Write(v)]
    case Named(_, inner) => Body(inner)
    case SizeTag(_) => []
    case Compound(items) =>
      if IsArrayBody(items) then [ArrayOpen] + Elements(item, |items|) + [ArrayClose]
      else [ObjectOpen] + Members(item, |items|) + [ObjectClose]
  }

  /** The writer calls for the elements among the first `k` items of an array level. */
  function Elements(owner: Item, k: nat): seq<Event>
    requires owner.Compound? && k <= |owner.items|
    decreases owner, k
  {
    if k <= 1 then [] else Elements(owner, k - 1) + Body(owner.items[k - 1])
  }

  /** The writer calls for the first `k` members of an object level. */
  function Members(owner: Item, k: nat): seq<Event>
    requires owner.Compound? && k <= |owner.items|
    decreases owner, k
  {
    if k == 0 then [] else Members(owner, k - 1) + [Key(MemberKey(owner.items, k - 1))] + Body(owner.items[k - 1])
  }

  function ScalarJson(v: Scalar): Json {
    match v
    case Bool(b) => JBool(b)
    case Int(i) => JInt(i)
    case Uint(u) => JInt(u)
    case Int64(i) => JInt(i)
    case Uint64(u) => JInt(u)
    case Str(s) => JString(s)
    case Null => JNull
  }

  function ToJson(item: Item): Json
    decreases item, if item.Compound? then |item.items| + 1 else 0
  {
    match item
    case Leaf(v) => ScalarJson(v)
    case Named(_, inner) => ToJson(inner)
    case SizeTag(_) => JNull
    case Compound(items) =>
      if IsArrayBody(items) then JArray(ElementsJson(item, |items|))
      else JObject(MembersJson(item, |items|))
  }

  function ElementsJson(owner: Item, k: nat): (r: seq<Json>)
    requires owner.Compound? && k <= |owner.items|
    ensures |r| == if k <= 1 then 0 else k - 1
    decreases owner, k
  {
    if k <= 1 then [] else ElementsJson(owner, k - 1) + [ToJson(owner.items[k - 1])]
  }

  /** Element `j` of an array document is the document of the item after `j` earlier ones and the size tag. */
  lemma {:induction false} ElementsJsonAt(owner: Item, k: nat, j: nat)
    requires owner.Compound? && k <= |owner.items| && j + 1 < k
    ensures ElementsJson(owner, k)[j] == ToJson(owner.items[j + 1])
    decreases k
  {
    if j + 2 < k {
      ElementsJsonAt(owner, k - 1, j);
    }
  }

  function MembersJson(owner: Item, k: nat): (r: seq<(string, Json)>)
    requires owner.Compound? && k <= |owner.items|
    ensures |r| == k
    decreases owner, k
  {
    if k == 0 then [] else MembersJson(owner, k - 1) + [(MemberKey(owner.items, k - 1), ToJson(owner.items[k - 1]))]
  }

  /** Member `j` of an object document carries item `j`'s key and document. */
  lemma {:induction false} MembersJsonAt(owner: Item, k: nat, j: nat)
    requires owner.Compound? && k <= |owner.items| && j < k
    ensures MembersJson(owner, k)[j] == (MemberKey(owner.items, j), ToJson(owner.items[j]))
    decreases k
  {
    if j + 1 < k {
      MembersJsonAt(owner, k - 1, j);
    }
  }

  /** Whether a level holds at least one value (and not just its size tag). */
  predicate HasValue(items: seq<Item>) {
    |items| > (if IsArrayBody(items) then 1 else 0)
  }

  /** The state of a level once all its items have been written. */
  function LevelAfter(items: seq<Item>): NodeType {
    if IsArrayBody(items) then (if |items| > 1 then InArray else StartArray)
    else (if |items| > 0 then InObject else StartObject)
  }

  /** The writer calls made while the items of a level are written. */
  function LevelEvents(owner: Item): seq<Event>
    requires owner.Compound?
  {
    var items := owner.items;
    if IsArrayBody(items) then (if |items| > 1 then [ArrayOpen] else []) + Elements(owner, |items|)
    else (if |items| > 0 then [ObjectOpen] else []) + Members(owner, |items|)
  }

  /** finishNode completes a level's calls to the value's body, empty levels included. */
  lemma LevelEventsClose(owner: Item)
    requires owner.Compound?
    ensures LevelEvents(owner) + CloseTokens(LevelAfter(owner.items)) == Body(owner)
  {
    var items := owner.items;
    if IsArrayBody(items) {
      if |items| == 1 {
        assert Elements(owner, |items|) == [];
      }
    } else if |items| == 0 {
      assert Members(owner, 0) == [];
    }
  }

  // ---------------------------------------------------------------------
  // The output driver.
  // ---------------------------------------------------------------------

  /** Archives one value into the output archive: the prologue, the save and the epilogue for its shape. */
  method Save(ar: JsonOutputArchive, item: Item)
    requires ar.Valid() && |ar.nodeStack| > 0
    requires Shaped(item, !ar.Top().IsObjectKind())
    requires !ar.Top().IsObjectKind() ==> ar.nextName.None?
    modifies ar
    ensures ar.Valid()
    ensures var t, p, c := Last(old(ar.nodeStack)), EffectiveName(item, old(ar.nextName)), Last(old(ar.nameCounter));
            && ar.nodeStack == WithTop(old(ar.nodeStack), t.Opened())
            && ar.nameCounter == WithTop(old(ar.nameCounter), CounterAfterName(t, p, c))
            && ar.nextName == PendingAfterName(t, p)
            && ar.events == old(ar.events) + NameEvents(t, p, c) + Body(item)
    decreases item, 3
  {
    match item
    case Leaf(v) =>
      ar.WriteName();
      ar.SaveValue(v);
    case Named(n, inner) =>
      ar.SetNextName(Some(n));
      Save(ar, inner);
    case Compound(_) =>
      SaveCompound(ar, item);
  }

  /** A compound value: startNode, its items, finishNode. */
  method SaveCompound(ar: JsonOutputArchive, item: Item)
    requires item.Compound? && Shaped(item, false)
    requires ar.Valid() && |ar.nodeStack| > 0
    requires !ar.Top().IsObjectKind() ==> ar.nextName.None?
    modifies ar
    ensures ar.Valid()
    ensures var t, p, c := Last(old(ar.nodeStack)), old(ar.nextName), Last(old(ar.nameCounter));
            && ar.nodeStack == WithTop(old(ar.nodeStack), t.Opened())
            && ar.nameCounter == WithTop(old(ar.nameCounter), CounterAfterName(t, p, c))
            && ar.nextName == PendingAfterName(t, p)
            && ar.events == old(ar.events) + NameEvents(t, p, c) + Body(item)
    decreases item, 2
  {
    ghost var t, p := ar.Top(), ar.nextName;
    ar.StartNode();
    ghost var s1, n1, e1 := ar.nodeStack, ar.nameCounter, ar.events;
    assert ar.Top() == StartObject && ar.TopCounter() == 0;
    assert ar.nextName == PendingAfterName(t, p) == None;
    SaveItems(ar, item);
    ghost var e2 := ar.events;
    ar.FinishNode();
    assert ar.nodeStack == Pop(s1) && ar.nameCounter == Pop(n1);
    CompoundEvents(item, e1, e2, ar.events);
  }

  lemma CompoundEvents(item: Item, e1: seq<Event>, e2: seq<Event>, e3: seq<Event>)
    requires item.Compound?
    requires e2 == e1 + LevelEvents(item)
    requires e3 == e2 + CloseTokens(LevelAfter(item.items))
    ensures e3 == e1 + Body(item)
  {
    LevelEventsClose(item);
  }

  /** The items of a compound value, archived in order into the level its prologue started. */
  method SaveItems(ar: JsonOutputArchive, owner: Item)
    requires owner.Compound? && Shaped(owner, false)
    requires ar.Valid() && |ar.nodeStack| > 0
    requires ar.Top() == StartObject && ar.TopCounter() == 0 && ar.nextName.None?
    modifies ar
    ensures ar.Valid() && ar.nextName.None?
    ensures ar.nodeStack == WithTop(old(ar.nodeStack), LevelAfter(owner.items))
    ensures Pop(ar.nameCounter) == Pop(old(ar.nameCounter))
    ensures ar.events == old(ar.events) + LevelEvents(owner)
    decreases owner, 1
  {
    if IsArrayBody(owner.items) {
      // the size tag's prologue
      ar.MakeArray();
      SaveElements(ar, owner);
    } else {
      SaveMembers(ar, owner);
    }
  }

  /** The elements after the size tag, each archived into the array level. */
  method SaveElements(ar: JsonOutputArchive, owner: Item)
    requires owner.Compound? && Shaped(owner, false) && IsArrayBody(owner.items)
    requires ar.Valid() && |ar.nodeStack| > 0
    requires ar.Top() == StartArray && ar.nextName.None?
    modifies ar
    ensures ar.Valid() && ar.nextName.None?
    ensures ar.nodeStack == WithTop(old(ar.nodeStack), LevelAfter(owner.items))
    ensures ar.nameCounter == old(ar.nameCounter)
    ensures ar.events == old(ar.events) + LevelEvents(owner)
    decreases owner, 0
  {
    var items := owner.items;
    ghost var s0, e0 := ar.nodeStack, ar.events;
    var k := 1;
    while k < |items|
      invariant 1 <= k <= |items|
      invariant ar.Valid() && ar.nextName.None?
      invariant ar.nodeStack == WithTop(s0, if k > 1 then InArray else StartArray)
      invariant ar.nameCounter == old(ar.nameCounter)
      invariant ar.events == e0 + (if k > 1 then [ArrayOpen] else []) + Elements(owner, k)
    {
      ghost var e := ar.events;
      var t := ar.Top();
      assert !t.IsObjectKind();
      Save(ar, items[k]);
      ElementStep(owner, k, e0, e, OpenToken(t), ar.events);
      k := k + 1;
    }
  }

  lemma ElementStep(owner: Item, k: nat, e0: seq<Event>, e: seq<Event>, open: seq<Event>, e': seq<Event>)
    requires owner.Compound? && 1 <= k < |owner.items|
    requires e == e0 + (if k > 1 then [ArrayOpen] else []) + Elements(owner, k)
    requires open == if k > 1 then [] else [ArrayOpen]
    requires e' == e + open + Body(owner.items[k])
    ensures e' == e0 + [ArrayOpen] + Elements(owner, k + 1)
  {
    if k == 1 {
      assert Elements(owner, k) == [];
    }
  }

  /** The members of an object level, each archived under its key. */
  method SaveMembers(ar: JsonOutputArchive, owner: Item)
    requires owner.Compound? && Shaped(owner, false) && !IsArrayBody(owner.items)
    requires ar.Valid() && |ar.nodeStack| > 0
    requires ar.Top() == StartObject && ar.TopCounter() == 0 && ar.nextName.None?
    modifies ar
    ensures ar.Valid() && ar.nextName.None?
    ensures ar.nodeStack == WithTop(old(ar.nodeStack), LevelAfter(owner.items))
    ensures Pop(ar.nameCounter) == Pop(old(ar.nameCounter))
    ensures ar.events == old(ar.events) + LevelEvents(owner)
    decreases owner, 0
  {
    var items := owner.items;
    ghost var s0, c0, e0 := ar.nodeStack, ar.nameCounter, ar.events;
    var k := 0;
    while k < |items|
      invariant 0 <= k <= |items|
      invariant ar.Valid() && ar.nextName.None?
      invariant ar.nodeStack == WithTop(s0, if k > 0 then InObject else StartObject)
      invariant ar.nameCounter == WithTop(c0, CounterAt(items, k))
      invariant ar.events == e0 + (if k > 0 then [ObjectOpen] else []) + Members(owner, k)
    {
      ghost var e := ar.events;
      var t := ar.Top();
      Save(ar, items[k]);
      MemberStep(owner, k, e0, e, OpenToken(t), ar.events);
      k := k + 1;
    }
  }

  lemma MemberStep(owner: Item, k: nat, e0: seq<Event>, e: seq<Event>, open: seq<Event>, e': seq<Event>)
    requires owner.Compound? && k < |owner.items|
    requires e == e0 + (if k > 0 then [ObjectOpen] else []) + Members(owner, k)
    requires open == if k > 0 then [] else [ObjectOpen]
    requires e' == e + open + [Key(MemberKey(owner.items, k))] + Body(owner.items[k])
    ensures e' == e0 + [ObjectOpen] + Members(owner, k + 1)
  {
    if k == 0 {
      assert Members(owner, k) == [];
    }
  }

  /**
    A whole output archive: the root level receives `items` and the archive
    is destroyed. An archive that received no value writes nothing at all.
   */
  method Serialize(items: seq<Item>) returns (events: seq<Event>)
    requires Shaped(Compound(items), false)
    ensures events == if HasValue(items) then Body(Compound(items)) else []
    ensures HasValue(items) ==> ParseWriterCalls(events) == Some(ToJson(Compound(items)))
  {
    var ar := new JsonOutputArchive();
    SaveItems(ar, Compound(items));
    ghost var written := ar.events;
    ar.Close();
    events := ar.events;
    RootEvents(items, written, events);
    if HasValue(items) {
      ParseBody(Compound(items), false, []);
      assert events + [] == events;
    }
  }

  /** The destructor completes the root level's calls only when a value was written into it. */
  lemma RootEvents(items: seq<Item>, written: seq<Event>, events: seq<Event>)
    requires written == [] + LevelEvents(Compound(items))
    requires events == written + FinalTokens(LevelAfter(items))
    ensures events == if HasValue(items) then Body(Compound(items)) else []
  {
    var owner := Compound(items);
    LevelEventsClose(owner);
    if !HasValue(items) {
      if IsArrayBody(items) {
        assert Elements(owner, |items|) == [];
      } else {
        assert Members(owner, |items|) == [];
      }
    }
  }

  // ---------------------------------------------------------------------
  // Reading the writer calls back. RapidJSON prints the calls as JSON text and
  // simdjson parses that text into the document tree; the composition of the
  // two is modelled here as a parser over the calls themselves.
  // ---------------------------------------------------------------------

  /** One value at the front of `evs`, and what follows it. */
  function ParseValue(evs: seq<Event>): (r: Option<(Json, seq<Event>)>)
    ensures r.Some? ==> |r.value.1| < |evs|
    decreases |evs|, 0
  {
    if evs == [] then None
    else match evs[0]
      case Write(v) => Some((ScalarJson(v), evs[1..]))
      case ArrayOpen => ParseElements(evs[1..], [])
      case ObjectOpen => ParseMembers(evs[1..], [])
      case _ => None
  }

  /** The rest of an array whose first elements were `acc`, up to and including its close. */
  function ParseElements(evs: seq<Event>, acc: seq<Json>): (r: Option<(Json, seq<Event>)>)
    ensures r.Some? ==> |r.value.1| < |evs|
    decreases |evs|, 1
  {
    if evs == [] then None
    else if evs[0] == ArrayClose then Some((JArray(acc), evs[1..]))
    else match ParseValue(evs)
      case None => None
      case Some((v, rest)) => ParseElements(rest, acc + [v])
  }

  /** The rest of an object whose first members were `acc`, up to and including its close. */
  function ParseMembers(evs: seq<Event>, acc: seq<(string, Json)>): (r: Option<(Json, seq<Event>)>)
    ensures r.Some? ==> |r.value.1| < |evs|
    decreases |evs|, 1
  {
    if evs == [] then None
    else if evs[0] == ObjectClose then Some((JObject(acc), evs[1..]))
    else if !evs[0].Key? then None
    else match ParseValue(evs[1..])
      case None => None
      case Some((v, rest)) => ParseMembers(rest, acc + [(evs[0].name, v)])
  }

  /** A complete document: exactly one value and nothing after it. */
  function ParseWriterCalls(evs: seq<Event>): Option<Json> {
    match ParseValue(evs)
    case Some((j, rest)) => if rest == [] then Some(j) else None
    case None => None
  }

  /** The writer calls for a value begin with a scalar or an open token, never a close or a key. */
  lemma BodyStart(item: Item, inArray: bool)
    requires Shaped(item, inArray)
    ensures |Body(item)| > 0
    ensures Body(item)[0].Write? || Body(item)[0] == ArrayOpen || Body(item)[0] == ObjectOpen
  {
    if item.Named? {
      BodyStart(item.item, false);
    }
  }

  /** The calls written for a value parse back to the value's document, whatever follows them. */
  lemma ParseBody(item: Item, inArray: bool, rest: seq<Event>)
    requires Shaped(item, inArray)
    ensures ParseValue(Body(item) + rest) == Some((ToJson(item), rest))
    decreases item, if item.Compound? then |item.items| + 2 else 0
  {
    match item
    case Leaf(v) =>
      var evs := Body(item) + rest;
      assert evs[0] == Write(v) && evs[1..] == rest;
    case Named(_, inner) =>
      ParseBody(inner, false, rest);
    case Compound(items) =>
      if IsArrayBody(items) {
        ParseArrayBody(item, rest);
      } else {
        ParseObjectBody(item, rest);
      }
  }

  lemma ParseArrayBody(item: Item, rest: seq<Event>)
    requires item.Compound? && Shaped(item, false) && IsArrayBody(item.items)
    ensures ParseValue(Body(item) + rest) == Some((ToJson(item), rest))
    decreases item, |item.items| + 1
  {
    var items := item.items;
    var evs := Body(item) + rest;
    var tail := [ArrayClose] + rest;
    assert tail[1..] == rest;
    assert evs[1..] == Elements(item, |items|) + tail;
    ParseElementsOf(item, |items|, tail, []);
    assert [] + ElementsJson(item, |items|) == ElementsJson(item, |items|);
  }

  lemma ParseObjectBody(item: Item, rest: seq<Event>)
    requires item.Compound? && Shaped(item, false) && !IsArrayBody(item.items)
    ensures ParseValue(Body(item) + rest) == Some((ToJson(item), rest))
    decreases item, |item.items| + 1
  {
    var items := item.items;
    var evs := Body(item) + rest;
    var tail := [ObjectClose] + rest;
    assert tail[1..] == rest;
    assert evs[1..] == Members(item, |items|) + tail;
    ParseMembersOf(item, |items|, tail, []);
    assert [] + MembersJson(item, |items|) == MembersJson(item, |items|);
  }

  lemma ParseElementsOf(owner: Item, k: nat, tail: seq<Event>, acc: seq<Json>)
    requires owner.Compound? && Shaped(owner, false) && IsArrayBody(owner.items) && k <= |owner.items|
    ensures ParseElements(Elements(owner, k) + tail, acc) == ParseElements(tail, acc + ElementsJson(owner, k))
    decreases owner, k
  {
    if k <= 1 {
      assert Elements(owner, k) + tail == tail;
      assert acc + ElementsJson(owner, k) == acc;
    } else {
      var x := owner.items[k - 1];
      var body := Body(x);
      assert Elements(owner, k) + tail == Elements(owner, k - 1) + (body + tail);
      ParseElementsOf(owner, k - 1, body + tail, acc);
      BodyStart(x, true);
      ParseBody(x, true, tail);
      ParseElementStep(body, ToJson(x), tail, acc + ElementsJson(owner, k - 1));
      assert acc + ElementsJson(owner, k - 1) + [ToJson(x)] == acc + ElementsJson(owner, k);
    }
  }

  /** One element of an array: its calls are parsed as a value and appended. */
  lemma ParseElementStep(body: seq<Event>, j: Json, tail: seq<Event>, acc: seq<Json>)
    requires |body| > 0 && body[0] != ArrayClose
    requires ParseValue(body + tail) == Some((j, tail))
    ensures ParseElements(body + tail, acc) == ParseElements(tail, acc + [j])
  {
    assert (body + tail)[0] == body[0];
  }

  lemma ParseMembersOf(owner: Item, k: nat, tail: seq<Event>, acc: seq<(string, Json)>)
    requires owner.Compound? && Shaped(owner, false) && !IsArrayBody(owner.items) && k <= |owner.items|
    ensures ParseMembers(Members(owner, k) + tail, acc) == ParseMembers(tail, acc + MembersJson(owner, k))
    decreases owner, k
  {
    if k == 0 {
      assert Members(owner, k) + tail == tail;
      assert acc + MembersJson(owner, k) == acc;
    } else {
      var x := owner.items[k - 1];
      var key := MemberKey(owner.items, k - 1);
      var body := Body(x);
      assert Members(owner, k) + tail == Members(owner, k - 1) + ([Key(key)] + (body + tail));
      ParseMembersOf(owner, k - 1, [Key(key)] + (body + tail), acc);
      ParseBody(x, false, tail);
      ParseMemberStep(key, body, ToJson(x), tail, acc + MembersJson(owner, k - 1));
      assert acc + MembersJson(owner, k - 1) + [(key, ToJson(x))] == acc + MembersJson(owner, k);
    }
  }

  /** One member of an object: a key, then calls parsed as its value. */
  lemma ParseMemberStep(key: string, body: seq<Event>, j: Json, tail: seq<Event>, acc: seq<(string, Json)>)
    requires ParseValue(body + tail) == Some((j, tail))
    ensures ParseMembers([Key(key)] + (body + tail), acc) == ParseMembers(tail, acc + [(key, j)])
  {
    assert ([Key(key)] + (body + tail))[1..] == body + tail;
  }

  // ---------------------------------------------------------------------
  // The input driver.
  // ---------------------------------------------------------------------

  /** A value declared as `v` reads back as `v` from the document it was written as. */
  lemma ScalarRoundTrip(v: Scalar)
    requires !v.Null?
    ensures Extract(KindOf(v), ScalarJson(v)).Success?
    ensures Narrow(v, Extract(KindOf(v), ScalarJson(v)).value) == v
  {
  }

  /**
    The cursor is on the document of `item`, and when a name applies to it
    that name is the key at the cursor.
   */
  ghost predicate AtItem(c: Cursor, pending: Option<string>, item: Item) {
    && WellFormed(item, c.ArrayCursor?)
    && Value(c) == Success(ToJson(item))
    && (EffectiveName(item, pending).Some? ==> Name(c) == EffectiveName(item, pending))
  }

  /** The cursor of a level after its first `k` items were read: a size tag does not move it. */
  function LevelCursor(owner: Item, k: nat): (c: Cursor)
    requires owner.Compound? && k <= |owner.items|
  {
    var start := Over(ToJson(owner));
    if start.NullCursor? then start
    else if start.ArrayCursor? then ArrayCursor(start.elems, if k == 0 then 0 else k - 1)
    else ObjectCursor(start.fields, k)
  }

  /** Reading item `k` of a level starts at that item's document and leaves the cursor on the next. */
  lemma LevelStep(owner: Item, k: nat)
    requires owner.Compound? && WellFormed(owner, false) && k < |owner.items|
    requires !(IsArrayBody(owner.items) && k == 0)
    ensures LevelCursor(owner, k).Valid()
    ensures AtItem(LevelCursor(owner, k), None, owner.items[k])
    ensures Advance(LevelCursor(owner, k)) == LevelCursor(owner, k + 1)
  {
    var items := owner.items;
    if IsArrayBody(items) {
      ElementsJsonAt(owner, |items|, k - 1);
    } else {
      MembersJsonAt(owner, |items|, k);
    }
  }

  /** The size tag of an array level reads the number of elements that follow it. */
  lemma LevelSize(owner: Item)
    requires owner.Compound? && WellFormed(owner, false) && IsArrayBody(owner.items)
    ensures LevelCursor(owner, 0).Count() == owner.items[0].size
    ensures LevelCursor(owner, 1) == LevelCursor(owner, 0)
  {
  }

  /** Reads one value from the input archive: the prologue, the load and the epilogue for its shape. */
  method Load(ar: JsonInputArchive, item: Item) returns (r: Result<Item, InputError>)
    requires ar.Valid() && |ar.stack| > 0
    modifies ar
    ensures ar.Valid()
    ensures r.Success? ==> |ar.stack| == |old(ar.stack)| && Pop(ar.stack) == Pop(old(ar.stack))
    ensures item.SizeTag? ==>
              r == Success(SizeTag(Last(old(ar.stack)).Count())) && ar.stack == old(ar.stack) && ar.nextName == old(ar.nextName)
    ensures AtItem(Last(old(ar.stack)), old(ar.nextName), item) ==>
              && r == Success(item) && ar.nextName == None
              && ar.stack == WithTop(old(ar.stack), Advance(Last(old(ar.stack))))
    decreases item, 2
  {
    match item
    case Leaf(v) =>
      if v.Null? {
        var outcome := ar.LoadNull();
        if outcome.Fail? {
          return Failure(outcome.error);
        }
        return Success(Leaf(Null));
      }
      ScalarRoundTrip(v);
      var read := ar.LoadValue(KindOf(v));
      if read.Failure? {
        return Failure(read.error);
      }
      return Success(Leaf(Narrow(v, read.value)));
    case Named(n, inner) =>
      ar.SetNextName(Some(n));
      r := Load(ar, inner);
      if r.Success? {
        r := Success(Named(n, r.value));
      }
    case SizeTag(_) =>
      var size := ar.LoadSize();
      return Success(SizeTag(size.value));
    case Compound(_) =>
      r := LoadCompound(ar, item);
  }

  /** A compound value: startNode, its items, finishNode. */
  method LoadCompound(ar: JsonInputArchive, item: Item) returns (r: Result<Item, InputError>)
    requires item.Compound? && ar.Valid() && |ar.stack| > 0
    modifies ar
    ensures ar.Valid()
    ensures r.Success? ==> |ar.stack| == |old(ar.stack)| && Pop(ar.stack) == Pop(old(ar.stack))
    ensures AtItem(Last(old(ar.stack)), old(ar.nextName), item) ==>
              && r == Success(item) && ar.nextName == None
              && ar.stack == WithTop(old(ar.stack), Advance(Last(old(ar.stack))))
    decreases item, 1
  {
    ghost var s0, c0, p0 := ar.stack, ar.Top(), ar.nextName;
    var outcome := ar.StartNode();
    if outcome.Fail? {
      return Failure(outcome.error);
    }
    ghost var s1 := ar.stack;
    var items := LoadItems(ar, item);
    if items.Failure? {
      return Failure(items.error);
    }
    ar.FinishNode();
    assert Pop(s1) == WithTop(s0, ResolveName(c0, p0).0);
    return Success(Compound(items.value));
  }

  /** The items of a compound value, read in order from the level its prologue entered. */
  method LoadItems(ar: JsonInputArchive, owner: Item) returns (r: Result<seq<Item>, InputError>)
    requires owner.Compound? && ar.Valid() && |ar.stack| > 0
    modifies ar
    ensures ar.Valid()
    ensures r.Success? ==> |ar.stack| == |old(ar.stack)| && Pop(ar.stack) == Pop(old(ar.stack))
    ensures WellFormed(owner, false) && old(ar.nextName) == None && Last(old(ar.stack)) == Over(ToJson(owner)) ==>
              r == Success(owner.items) && ar.nextName == None
    decreases owner, 0
  {
    var items := owner.items;
    ghost var s0 := ar.stack;
    ghost var replay := WellFormed(owner, false) && ar.nextName == None && ar.Top() == Over(ToJson(owner));
    var loaded: seq<Item> := [];
    var k := 0;
    while k < |items|
      invariant 0 <= k <= |items|
      invariant ar.Valid() && |ar.stack| == |s0| && Pop(ar.stack) == Pop(s0)
      invariant replay ==> loaded == items[..k] && ar.nextName == None && ar.Top() == LevelCursor(owner, k)
    {
      ghost var sizeTag := IsArrayBody(items) && k == 0;
      if replay {
        if sizeTag {
          LevelSize(owner);
        } else {
          LevelStep(owner, k);
        }
      }
      var next := Load(ar, items[k]);
      if next.Failure? {
        return Failure(next.error);
      }
      assert replay ==> next.value == items[k] && ar.Top() == LevelCursor(owner, k + 1);
      assert items[..k + 1] == items[..k] + [items[k]];
      loaded := loaded + [next.value];
      k := k + 1;
    }
    assert replay ==> items[..k] == items;
    return Success(loaded);
  }

  /** The member named `name` (the first one, as the search finds it) holds the document of `v`. */
  ghost predicate HoldsByName(fields: seq<(string, Json)>, name: string, v: Scalar) {
    FindKey(fields, name, 0).Some? && fields[FindKey(fields, name, 0).value].1 == ScalarJson(v)
  }

  /**
    One name-value pair of a scalar read back: the name is searched for in
    the current level, and with distinct keys the search always lands on the
    member of that name, wherever the cursor stood before.
   */
  method LoadNamed(ar: JsonInputArchive, name: string, v: Scalar) returns (r: Result<Scalar, InputError>)
    requires ar.Valid() && |ar.stack| > 0
    modifies ar
    ensures ar.Valid() && |ar.stack| == |old(ar.stack)| && ar.nextName == None
    ensures Last(ar.stack).Rewound() == Last(old(ar.stack)).Rewound()
    ensures var c := Last(old(ar.stack));
            c.ObjectCursor? && DistinctKeys(c.fields) && HoldsByName(c.fields, name, v) ==> r == Success(v)
  {
    ar.SetNextName(Some(name));
    ghost var c := ar.Top();
    assert c == ar.stack[|ar.stack| - 1];
    if c.ObjectCursor? && DistinctKeys(c.fields) && HoldsByName(c.fields, name, v) {
      ResolveDistinctKey(c, name);
    }
    if v.Null? {
      var outcome := ar.LoadNull();
      if outcome.Fail? {
        return Failure(outcome.error);
      }
      return Success(Null);
    }
    ScalarRoundTrip(v);
    var read := ar.LoadValue(KindOf(v));
    if read.Failure? {
      return Failure(read.error);
    }
    return Success(Narrow(v, read.value));
  }

  /**
    Name-value pairs of scalars read from one object level in the order of
    `wanted`, which need not be the order they were written in.
   */
  method LoadByName(ar: JsonInputArchive, wanted: seq<(string, Scalar)>) returns (r: Result<seq<Scalar>, InputError>)
    requires ar.Valid() && |ar.stack| > 0
    modifies ar
    ensures ar.Valid()
    ensures var c := Last(old(ar.stack));
            c.ObjectCursor? && DistinctKeys(c.fields) &&
            (forall k :: 0 <= k < |wanted| ==> HoldsByName(c.fields, wanted[k].0, wanted[k].1)) ==>
              r.Success? && |r.value| == |wanted| && forall k :: 0 <= k < |wanted| ==> r.value[k] == wanted[k].1
  {
    ghost var c0 := ar.Top();
    ghost var replay := c0.ObjectCursor? && DistinctKeys(c0.fields) &&
                        (forall k :: 0 <= k < |wanted| ==> HoldsByName(c0.fields, wanted[k].0, wanted[k].1));
    var values: seq<Scalar> := [];
    var k := 0;
    while k < |wanted|
      invariant 0 <= k <= |wanted|
      invariant ar.Valid() && |ar.stack| > 0
      invariant replay ==> && Last(ar.stack).Rewound() == c0.Rewound()
                           && |values| == k && forall j :: 0 <= j < k ==> values[j] == wanted[j].1
    {
      var (name, v) := wanted[k];
      var read := LoadNamed(ar, name, v);
      if read.Failure? {
        return Failure(read.error);
      }
      values := values + [read.value];
      k := k + 1;
    }
    return Success(values);
  }

  /** A whole input archive over a parsed document, read with the shape the output archive was given. */
  method Deserialize(doc: Json, shape: seq<Item>) returns (r: Result<seq<Item>, InputError>)
    ensures !doc.IsContainer() ==> r == Failure(RootNotContainer)
    ensures WellFormed(Compound(shape), false) && doc == ToJson(Compound(shape)) ==> r == Success(shape)
  {
    var archive := JsonInputArchive.Open(doc);
    if archive.Failure? {
      return Failure(archive.error);
    }
    var ar := archive.value;
    r := LoadItems(ar, Compound(shape));
  }

  /**
    Writing `items` into a fresh output archive, parsing what it wrote and
    reading it back with the same shape gives `items` again, unless nothing
    but a size tag was written: an empty output is not a JSON document.
   */
  method RoundTrip(items: seq<Item>) returns (r: Result<seq<Item>, InputError>)
    requires WellFormed(Compound(items), false)
    ensures HasValue(items) ==> r == Success(items)
    ensures !HasValue(items) ==> r == Failure(ParseFailed)
  {
    var events := Serialize(items);
    var doc := ParseWriterCalls(events);
    if doc.None? {
      return Failure(ParseFailed);
    }
    r := Deserialize(doc.value, items);
  }
}
