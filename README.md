# ser20 simdjson JSON archives, modelled in Dafny

This project models the two archives of ser20's `include/ser20/archives/simdjson.hpp`. It also models the prologue/epilogue glue that connects them to the serialization framework.

- **`JSONOutputArchive`** (`output_archive.dfy`, module `JsonOutput`) is the emitter.
  - It is a class with the source's two parallel stacks: `nodeStack` (`StartObject | InObject | StartArray | InArray`) and `nameCounter`.
  - It also holds the pending name `nextName`.
  - The RapidJSON writer is the append-only log `events` of the calls made on it: object/array open and close, key, scalar.
  - `WriteName` decides lazily whether a level is an object or an array. It writes the open token exactly once and a key only on object levels.
  - A ghost invariant, `Balanced`, says that the writer calls are properly nested. The containers left open are exactly the resolved levels of the node stack.
- **`JSONInputArchive`** (`cursor.dfy` and `input_archive.dfy`, modules `JsonCursor` and `JsonInput`) is the absorber.
  - The nested `Iterator` is the value type `Cursor`: `ArrayCursor`, `ObjectCursor` or `NullCursor` for `Type::Null_`. The archive keeps its iterators by value in a `std::vector`.
  - The archive is a class over an immutable parsed document (`Json`), a stack of cursors and a pending name filter.
  - Name lookup is the rewind-and-scan `Search` loop.
  - A ghost invariant, `PathInto`, says that every cursor ranges over the container at the position of the cursor below it. This is what makes `loadSize` return the size of the level being read.
- **The glue** (`glue.dfy`, module `ArchiveGlue`) drives both archives over the value shapes the framework hands them:
  - a scalar, string or `nullptr` (`Leaf`);
  - a name-value pair (`Named`);
  - a `SizeTag`;
  - any other type (`Compound`, whose own serialize function archives its `items`).

  The glue proves three things:
  - what the output archive writes for a value (`Body`);
  - that those writer calls parse as one JSON value (`ParseWriterCalls`, RFC 8259 sections 4 and 5) equal to the value's document (`ToJson`);
  - that the input archive reads the same value back from that document.

  It also proves that name-value pairs of scalars in an object level whose keys are distinct can be read back by name in any order.
- **`scenarios.dfy`** (module `ArchiveExamples`) holds concrete scenarios, proved by the verifier:
  - the skip-and-search reading pattern described in the input archive's documentation;
  - the read order c, a, b over `{a:1, b:2, c:3}`;
  - a missing name;
  - the size of an empty array;
  - the keys synthesized around a name-value pair;
  - a pending name left over on an array level;
  - the 64-bit extremes and the 32-bit narrowing.

Shared types live in `values.dfy`: scalars by writer primitive, the parsed document, the integer ranges. `wrappers.dfy` holds `Option`, `Result`, `Outcome` and the stack helpers. The source's exceptions are `Failure`/`Fail` values of `InputError`.

Library calls and operations with no Dafny counterpart enter the model as follows:
- The RapidJSON writer is the event log.
- simdjson parsing: the document is an input.
- base64 is a function parameter (`encode`, `decode`).
- Printing and parsing JSON text are composed into one parser over the writer calls.

## Model

| member | source | states |
|---|---|---|
| JsonOutput.JsonOutputArchive.constructor | include/ser20/archives/simdjson.hpp:140-148 | the root level is an unresolved object with counter 0, no name is pending, nothing is written, and the archive is balanced |
| JsonOutput.JsonOutputArchive.Close | include/ser20/archives/simdjson.hpp:151-156 | the destructor appends a close only for a root that reached InObject/InArray, nothing for an unresolved root, and leaves no container open when only the root level remains |
| JsonOutput.JsonOutputArchive.SetNextName | include/ser20/archives/simdjson.hpp:216 | only the pending name changes |
| JsonOutput.JsonOutputArchive.WriteName | include/ser20/archives/simdjson.hpp:347-371 | the top level moves from Start* to In*; the writer receives its open token (only if it was unresolved) and, on an object level, one key; the pending name and counter change exactly as `PendingAfterName`/`CounterAfterName` say; balance is kept |
| JsonOutput.JsonOutputArchive.ResolveTop | include/ser20/archives/simdjson.hpp:348-357 | an unresolved top gets its open token and its In* state; nothing else changes |
| JsonOutput.JsonOutputArchive.NameObjectChild | include/ser20/archives/simdjson.hpp:359-370 | exactly one key is written: the pending name, which is cleared, or `value<counter>`, after which the counter is incremented |
| JsonOutput.ObjectLevelName | include/ser20/archives/simdjson.hpp:347-370 | on an object level writeName opens the level only when it is StartObject, then writes one key; the counter advances only in the unnamed case; the name is always cleared |
| JsonOutput.ArrayLevelName | include/ser20/archives/simdjson.hpp:351-361 | on an array level writeName opens the level only when it is StartArray, never writes a key, and leaves the pending name and counter untouched |
| JsonOutput.NextCount | include/ser20/archives/simdjson.hpp:365 | the `uint32_t` counter increment adds one and wraps to 0 at 2^32 |
| JsonOutput.Decimal | include/ser20/archives/simdjson.hpp:364-365 | `std::to_string` of the counter is a non-empty string of decimal digits, with a leading `0` only for the number 0 |
| JsonOutput.AutoLabel | include/ser20/archives/simdjson.hpp:364-365 | an automatic label starts with `"value"` and has more after it; the trailing `"\0"` appends an empty C string, so nothing else is added |
| JsonOutput.AutoLabelDigits | include/ser20/archives/simdjson.hpp:364-365 | after `"value"` an automatic label holds only decimal digits, and they read back as the counter |
| JsonOutput.DecimalRoundTrip | include/ser20/archives/simdjson.hpp:364-365 | the decimal text of the counter reads back as the counter |
| JsonOutput.AutoLabelInjective | include/ser20/archives/simdjson.hpp:364-365 | automatic labels `"value"+N` are equal exactly when the counters are |
| JsonOutput.JsonOutputArchive.StartNode | include/ser20/archives/simdjson.hpp:183-187 | the parent is named as by writeName, then StartObject and a counter of 0 are pushed together; the stacks keep equal height and the calls stay balanced |
| JsonOutput.JsonOutputArchive.FinishNode | include/ser20/archives/simdjson.hpp:190-213 | exactly the close matching the top's kind is written, preceded by the open token when no child was written (`{}`/`[]`); both stacks are popped; balance is kept |
| JsonOutput.JsonOutputArchive.MakeArray | include/ser20/archives/simdjson.hpp:375 | the top becomes StartArray and nothing else changes; the calls stay balanced when the level was still unresolved |
| JsonOutput.JsonOutputArchive.SaveValue | include/ser20/archives/simdjson.hpp:219-238 | one scalar call is appended and the state is unchanged |
| JsonOutput.JsonOutputArchive.SaveBinaryValue | include/ser20/archives/simdjson.hpp:161-169 | the given name (possibly none) replaces the pending one, the position is named as by writeName, and the encoded text is written as one string |
| JsonOutput.WriteNameKeepsBalance | include/ser20/archives/simdjson.hpp:347-371 | writeName's calls keep the writer output nested and matched to the resolved levels |
| JsonOutput.StartNodeKeepsBalance | include/ser20/archives/simdjson.hpp:183-187 | pushing an unresolved level over a resolved one keeps the balance |
| JsonOutput.FinishNodeKeepsBalance | include/ser20/archives/simdjson.hpp:190-213 | finishNode's close tokens match the level popped, so the balance is kept |
| JsonOutput.MakeArrayKeepsBalance | include/ser20/archives/simdjson.hpp:375 | turning an unresolved level into an array keeps the balance |
| JsonOutput.WriteValueKeepsBalance | include/ser20/archives/simdjson.hpp:219-238 | a scalar call keeps the balance |
| JsonOutput.CloseCompletesDocument | include/ser20/archives/simdjson.hpp:151-156 | at depth 1 the destructor's token leaves no container open |
| JsonCursor.OverArray | include/ser20/archives/simdjson.hpp:565-571 | an array iterator over an empty array is Null_; otherwise it starts at the first element |
| JsonCursor.OverObject | include/ser20/archives/simdjson.hpp:557-562 | an object iterator over an empty object is Null_; otherwise it starts at the first member |
| JsonCursor.Over | include/ser20/archives/simdjson.hpp:525-530 | the iterator pushed for a container (array or object, by `is_array()`/`is_object()`) is well-formed, counts the container's children and starts at the beginning |
| JsonCursor.Advance | include/ser20/archives/simdjson.hpp:573-583 | `++` moves one step when not at the end, never past the end, and does nothing on Null_; it stays in its level |
| JsonCursor.IsValid | include/ser20/archives/simdjson.hpp:630-637 | `isValid()` holds exactly for an array or object cursor that is before its end; a Null_ cursor is never valid |
| JsonCursor.ValidMeansMovable | include/ser20/archives/simdjson.hpp:573-601 | on a well-formed cursor, `isValid()` holds exactly when `++` moves it and exactly when `value()` succeeds |
| JsonCursor.Value | include/ser20/archives/simdjson.hpp:585-601 | `value()` succeeds exactly on a cursor before its end and gives that child; an exhausted cursor fails with "no more objects", Null_ with the internal error |
| JsonCursor.Name | include/ser20/archives/simdjson.hpp:603-608 | `name()` gives a key only for a non-exhausted object cursor, and then the key at the position |
| JsonCursor.FindKey | include/ser20/archives/simdjson.hpp:617-623 | the first position at or after the start whose key matches, or none when no later key matches |
| JsonCursor.SearchResult | include/ser20/archives/simdjson.hpp:611-627 | a non-object level fails without moving; an object level is rewound and succeeds exactly when some key matches, stopping at the first match, else fails with the name at the end |
| JsonCursor.Search | include/ser20/archives/simdjson.hpp:611-627 | the rewind-and-scan loop computes `SearchResult` |
| JsonInput.KindOf | include/ser20/archives/simdjson.hpp:674-713 | the getter a declared type reads with: `bool` with get_bool, `int` and `int64_t` with get_int64, `unsigned` and `uint64_t` with get_uint64, strings with get_string, and each getter only for those types |
| JsonInput.Extract | include/ser20/archives/simdjson.hpp:697-732 | each typed getter succeeds exactly on an element of its type (numbers in the 64-bit range requested) and fails with a type error otherwise |
| JsonInput.WrapInt32 | include/ser20/archives/simdjson.hpp:680 | `static_cast` to a 32-bit signed type is congruent modulo 2^32 and the identity inside the range |
| JsonInput.WrapUInt32 | include/ser20/archives/simdjson.hpp:692 | `static_cast` to a 32-bit unsigned type is congruent modulo 2^32 and the identity inside the range |
| JsonInput.Narrow | include/ser20/archives/simdjson.hpp:674-695 | the small-integer overloads store the 64-bit value narrowed to the declared width; the other overloads store the value as read |
| JsonInput.ResolveName | include/ser20/archives/simdjson.hpp:866-876 | without a name, or with the current key, the cursor is kept; otherwise the level is searched: on success the cursor is on the first matching key; failure happens exactly when the level is not an object or has no such key |
| JsonInput.ResolveDistinctKey | include/ser20/archives/simdjson.hpp:401-411 | with distinct keys, a name present in the level resolves to its member from any position: members can be read in any order |
| JsonInput.LoadResult | include/ser20/archives/simdjson.hpp:697-713 | a scalar load resolves the name, reads the element there with the requested getter, and on success advances by exactly one; it succeeds exactly when resolution passes, the cursor is on an element and the getter accepts it; a failure carries the resolution error, else "no more objects" or the null-iterator error of `value()`, else the getter's type error, and leaves the cursor where resolution put it |
| JsonInput.SequentialLoad | include/ser20/archives/simdjson.hpp:406-407 | without a pending name a load reads the element at the position and advances by one exactly when the element has the requested type |
| JsonInput.PathPush | include/ser20/archives/simdjson.hpp:646-661 | pushing a cursor over the container at the top's position keeps the stack a path into the document |
| JsonInput.PathPop | include/ser20/archives/simdjson.hpp:663-667 | popping keeps the stack a path into the document |
| JsonInput.PathRetarget | include/ser20/archives/simdjson.hpp:573-583 | moving the top cursor within its level keeps the stack a path into the document |
| JsonInput.PathParentSize | include/ser20/archives/simdjson.hpp:853-858 | the value at the parent's position is a container with as many children as the top cursor ranges over |
| JsonInput.JsonInputArchive.FromDocument | include/ser20/archives/simdjson.hpp:523-534 | a container root gives one cursor over the root and no pending name |
| JsonInput.JsonInputArchive.Open | include/ser20/archives/simdjson.hpp:523-534 | a root that is neither array nor object is refused with "root element is not an object or array", and only such a root |
| JsonInput.JsonInputArchive.GetNodeName | include/ser20/archives/simdjson.hpp:669 | the key at the current position of a non-exhausted object level, else none |
| JsonInput.JsonInputArchive.SetNextName | include/ser20/archives/simdjson.hpp:671 | only the pending name changes |
| JsonInput.JsonInputArchive.Resolve | include/ser20/archives/simdjson.hpp:866-876 | the pending name is always cleared and the top cursor moves as `ResolveName` says |
| JsonInput.JsonInputArchive.StartNode | include/ser20/archives/simdjson.hpp:646-661 | after resolution, the value at the position is entered without moving the parent; a resolution failure, an exhausted level or a scalar there fails without pushing |
| JsonInput.JsonInputArchive.FinishNode | include/ser20/archives/simdjson.hpp:663-667 | the top cursor is popped and the new top advances by exactly one |
| JsonInput.JsonInputArchive.LoadValue | include/ser20/archives/simdjson.hpp:674-732 | the scalar loads clear the pending name and move the top cursor as `LoadResult` says |
| JsonInput.JsonInputArchive.LoadNull | include/ser20/archives/simdjson.hpp:734-738 | the null load resolves the name and advances after a successful resolution, without checking the element |
| JsonInput.JsonInputArchive.LoadSize | include/ser20/archives/simdjson.hpp:845-863 | the size is the child count of the level being read, at depth 1 and below, and the load never fails on a valid archive |
| JsonInput.JsonInputArchive.LoadBinaryValue | include/ser20/archives/simdjson.hpp:536-547 | the string under the given name is decoded; a decoded length different from `size` fails before any data is returned |
| ArchiveGlue.Save | include/ser20/archives/simdjson.hpp:943-1169 | archiving a value of a framework shape (`Shaped`; the size tags' counts are not needed) names it as writeName would with the innermost pair's name, then writes exactly `Body(item)`; the stacks and counters change as one writeName does |
| ArchiveGlue.SaveCompound | include/ser20/archives/simdjson.hpp:972-1012 | a compound value is startNode, its items, finishNode: the parent is named and the value's own calls follow |
| ArchiveGlue.SaveItems | include/ser20/archives/simdjson.hpp:943-947 | a level whose first item is a size tag is made an array before anything is written into it; its items are the elements, otherwise members |
| ArchiveGlue.SaveElements | include/ser20/archives/simdjson.hpp:351-361 | the elements of an array level are written without keys, opening the level with the first one |
| ArchiveGlue.SaveMembers | include/ser20/archives/simdjson.hpp:359-370 | each member of an object level gets its key (its name or the next automatic label), opening the level with the first one |
| ArchiveGlue.Serialize | include/ser20/archives/simdjson.hpp:140-156 | a fresh archive given a level of items and destroyed writes exactly the level's document calls, or nothing when no value was written; what it writes parses as one JSON value equal to the level's document |
| ArchiveGlue.RootEvents | include/ser20/archives/simdjson.hpp:151-156 | the destructor completes the root level exactly like finishNode would when a value was written, and the output is empty otherwise |
| ArchiveGlue.ParseBody | include/ser20/archives/simdjson.hpp:72-78 | the calls written for any value of a framework shape (`Shaped`) form one JSON value, the value's document, whatever follows them; size-tagged levels come out as arrays |
| ArchiveGlue.ScalarRoundTrip | include/ser20/archives/simdjson.hpp:674-732 | each declared scalar is read back, with the getter its type selects, as the value written |
| ArchiveGlue.LevelSize | include/ser20/archives/simdjson.hpp:72-78 | the size tag of an array level reads back the number of elements written after it |
| ArchiveGlue.Load | include/ser20/archives/simdjson.hpp:950-1176 | reading a value keeps the archive valid and the lower levels; a size tag reads the level's child count; when the cursor is on the value's document (under its name, if any) the read gives the value back and advances past it |
| ArchiveGlue.LoadCompound | include/ser20/archives/simdjson.hpp:985-1025 | a compound value is startNode, its items, finishNode; on the value's document it gives the value back and the parent advances by one |
| ArchiveGlue.LoadItems | include/ser20/archives/simdjson.hpp:406-407 | reading the items of a level in order from its start gives back exactly the items written |
| ArchiveGlue.LoadNamed | include/ser20/archives/simdjson.hpp:1110-1115 | a name-value pair of a scalar is read by name; in an object level with distinct keys it gives the member of that name, wherever the cursor stood, and stays in the level |
| ArchiveGlue.LoadByName | include/ser20/archives/simdjson.hpp:401-411 | name-value pairs of scalars in an object level whose keys are distinct, read by name in any order, give back the value of each member of that name |
| ArchiveGlue.Deserialize | include/ser20/archives/simdjson.hpp:523-534 | a document whose root is not a container is refused; the document of a well-formed level reads back as that level |
| ArchiveGlue.RoundTrip | include/ser20/archives/simdjson.hpp:395-399 | saving a well-formed level, parsing the output and loading it with the same shape gives the level back; a level with no value gives an empty output, which fails to parse |
| ArchiveExamples.SkipAndSearch | include/ser20/archives/simdjson.hpp:413-427 | over nine members, three sequential reads, a read of "hello" and three more reads give 1, 2, 3, 6, 7, 8, 9 |
| ArchiveExamples.OutOfOrder | include/ser20/archives/simdjson.hpp:406-411 | reading `{a:1, b:2, c:3}` by c, a, b gives 3, 1, 2, and the next unnamed read gives 3 |
| ArchiveExamples.MissingField | include/ser20/archives/simdjson.hpp:611-627 | a missing name fails with that name, and the level is then exhausted |
| ArchiveExamples.EmptyArraySize | include/ser20/archives/simdjson.hpp:845-863 | an empty array is entered and has size 0 |
| ArchiveExamples.NamedThenUnnamed | include/ser20/archives/simdjson.hpp:359-370 | a named member followed by an unnamed one gives the keys "x" and "value0" |
| ArchiveExamples.NameInArray | include/ser20/archives/simdjson.hpp:359-361 | a name set before an array element is not written and stays pending |
| ArchiveExamples.NameEntersChild | include/ser20/archives/simdjson.hpp:183-187 | a name pending on an array level passes through `startNode` unwritten and becomes the first key of the child object: `[ArrayOpen, ObjectOpen, Key("x"), Write(1)]` |
| ArchiveExamples.WideIntegers | include/ser20/archives/simdjson.hpp:225-227 | the largest uint64 and the smallest int64 survive a round trip with their types |
| ArchiveExamples.NarrowUnsigned | include/ser20/archives/simdjson.hpp:692 | 2^32 + 5 read into an `unsigned` gives 5 |

## Left out

- Parsing JSON text (`ParseStream`, `ParseDocument`, simdjson) is left out: the parsed document is an input. A parse failure appears only as `ParseFailed`, which `RoundTrip` returns for an empty output.
- RapidJSON `PrettyWriter` formatting is left out: indentation, precision and `Options`. The writer is the sequence of calls made on it, and printing followed by parsing is the parser `ParseWriterCalls` over those calls.
- base64 encoding and decoding are opaque function parameters.
- Floating point is left out: `saveValue(double)`, `loadValue(float/double)`, and the long double `stringstream`/`stold` path.
- The platform-dependent `long`/`unsigned long` dispatch (`saveLong`, `loadLong`) and the 8- and 16-bit types are left out. The scalars are `bool`, `int`, `unsigned`, `int64_t`, `uint64_t`, strings and `nullptr`.
- The `stoll`/`stoull` string conversions are left out.
- JsonOutput.JsonOutputArchive.SaveValue: a string is passed to the writer with its length cast to RapidJSON's 32-bit `SizeType` (:233), so a string of 2^32 bytes or more would be written as only its first `size mod 2^32` bytes. The model writes the whole string; such strings are outside the model.
- Narrow: models the small-integer `static_cast` as reduction modulo 2^32, which C++20 defines, for the 32-bit types only.
- The `memcpy` into the caller's buffer in `loadBinaryValue` is left out. `LoadBinaryValue` returns the decoded bytes instead.
- Archive registration, the traits macros, the `requires` conditions that select a prologue, minimal types and `DeferredData` are left out: they are framework type dispatch.
- Keys are compared as whole strings. `strcmp` on C strings stops at an embedded NUL character; that is not modelled.
- JsonOutput.JsonOutputArchive.Close: the destructor closes the top level only, as the code does. Levels left open by a missing `finishNode` stay open.
- ArchiveGlue.Save: requires a value of a framework shape (`Shaped`) and no pending name on an array level. The pending name that `writeName` leaves on an array level is modelled by `WriteName` and shown by `NameInArray`, but not carried through the driver.
- ArchiveGlue.LoadByName: proved for scalar values only, and only when the level's keys are distinct. Reading nested values by name out of order is not proved. With repeated keys, a by-name read from a position that is not on a member of that name lands on the first member with that key (`ResolveName`, `FindKey`), not necessarily the one intended; that case is not covered.
- ArchiveGlue.RoundTrip: reads the level back in the order it was written. Out-of-order reads of scalar name-value pairs are covered by `LoadByName`, and of concrete documents by the scenarios, not for nested values.
- ArchiveGlue.RoundTrip: strings are modelled as Unicode text, that is, as valid UTF-8. A `std::string` holding bytes that are not valid UTF-8 is written by RapidJSON but makes simdjson's parse fail ("Failed to parse JSON"); such strings are outside the model, which takes printing followed by parsing to be the identity on strings. The archive's `simdjson::dom::parser` is default-constructed (simdjson.hpp:880), and simdjson's defaults make the parse at :506 and :516 fail for a document nested more than 1024 containers deep (DEPTH_ERROR) or larger than 4 GiB (CAPACITY), which `ParseDocument` reports as "Failed to parse JSON" (:507-509). `ParseWriterCalls` has neither limit, so values nested that deep or that large are outside the model too, and `RoundTrip` claims success for them where the program throws.
- JsonInput.JsonInputArchive.LoadSize: container sizes are assumed to be below 0xFFFFFF. simdjson's DOM `size()` saturates at 0xFFFFFF, because the tape stores the count in 24 bits, so a larger array or object would report 0xFFFFFF; `LoadSize` gives the exact child count.
- Undefined behaviour on an empty stack (`top()`, `back()` or `pop()` with no level) is excluded by `requires` clauses.
