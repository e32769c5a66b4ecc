/**
  The output archive of include/ser20/archives/simdjson.hpp (`JSONOutputArchive`).

  The archive does not know, when a node starts, whether it will become a JSON
  object or a JSON array: every level of `nodeStack` remembers whether its open
  token is still to be written (`Start*`) or has been written (`In*`), and the decision is taken
  lazily by `WriteName`, the one place every value passes through. The RapidJSON
  writer is modelled by the sequence of calls made on it, `events`.
 */
module JsonOutput {
  import opened Wrappers
  import opened Stacks
  import opened JsonValues

  /** The state of one nesting level. */
  datatype NodeType = StartObject | InObject | StartArray | InArray
  {
    /** The open token of this level has not been written yet. */
    predicate IsStart() {
      StartObject? || StartArray?
    }

    /** The level is (or will become) a JSON object, so its children have keys. */
    predicate IsObjectKind() {
      StartObject? || InObject?
    }

    /** The state once the open token has been written. */
    function Opened(): (t: NodeType)
      ensures !t.IsStart() && t.IsObjectKind() == IsObjectKind()
    {
      match this
      case StartObject => InObject
      case StartArray => InArray
      case _ => this
    }
  }

  /** One call on the RapidJSON writer. `Key` is the `String` call writeName makes in key position. */
  datatype Event =
    | ObjectOpen
    | ObjectClose
    | ArrayOpen
    | ArrayClose
    | Key(name: string)
    | Write(value: Scalar)

  // ---------------------------------------------------------------------
  // Automatically generated names: "value" followed by std::to_string of the
  // level's counter. The trailing "\0" literal in the source appends an empty
  // C string and so adds nothing.
  // ---------------------------------------------------------------------

  predicate IsDigit(ch: char) {
    '0' <= ch <= '9'
  }

  function DigitChar(d: nat): (ch: char)
    requires d < 10
    ensures IsDigit(ch) && (ch == '0' <==> d == 0)
  {
    ('0' as int + d) as char
  }

  function DigitValue(ch: char): (d: nat)
    requires IsDigit(ch)
    ensures d < 10
  {
    ch as int - '0' as int
  }

  /** The decimal text of `n`, as `std::to_string` writes an unsigned number. */
  function Decimal(n: nat): (s: string)
    ensures 0 < |s| && forall i :: 0 <= i < |s| ==> IsDigit(s[i])
    ensures s[0] == '0' <==> n == 0
    decreases n
  {
    if n < 10 then [DigitChar(n)] else Decimal(n / 10) + [DigitChar(n % 10)]
  }

  /** Reads a string of decimal digits back as a number. */
  function DecimalValue(s: string): nat
    requires forall i :: 0 <= i < |s| ==> IsDigit(s[i])
    decreases |s|
  {
    if s == [] then 0 else DecimalValue(s[..|s| - 1]) * 10 + DigitValue(s[|s| - 1])
  }

  lemma {:induction false} DecimalRoundTrip(n: nat)
    ensures DecimalValue(Decimal(n)) == n
    decreases n
  {
    var s := Decimal(n);
    if n >= 10 {
      assert s[..|s| - 1] == Decimal(n / 10);
      DecimalRoundTrip(n / 10);
    }
  }

  /** The name given to an unnamed child of an object level. */
  function AutoLabel(counter: nat): (name: string)
    ensures |name| > 5 && name[..5] == "value"
  {
    "value" + Decimal(counter)
  }

  /**
    After the prefix "value" a synthesized name holds exactly the decimal
    digits of the counter, and they read back as the counter.
   */
  lemma AutoLabelDigits(counter: nat)
    ensures var name := AutoLabel(counter);
            && (forall i :: 5 <= i < |name| ==> IsDigit(name[i]))
            && DecimalValue(name[5..]) == counter
  {
    assert AutoLabel(counter)[5..] == Decimal(counter);
    DecimalRoundTrip(counter);
  }

  /** Different counter values give different names. */
  lemma AutoLabelInjective(m: nat, n: nat)
    ensures AutoLabel(m) == AutoLabel(n) <==> m == n
  {
    if AutoLabel(m) == AutoLabel(n) {
      AutoLabelDigits(m);
      AutoLabelDigits(n);
    }
  }

  /** `itsNameCounter.top()++` on a `uint32_t`. */
  function NextCount(c: UInt32): (r: UInt32)
    ensures c + 1 < UINT32_LIMIT ==> r == c + 1
    ensures c + 1 == UINT32_LIMIT ==> r == 0
  {
    (c + 1) % UINT32_LIMIT
  }

  // ---------------------------------------------------------------------
  // What writeName does, as functions of the state it reads: the top level,
  // the pending name and the top counter.
  // ---------------------------------------------------------------------

  /** The open token written when a level is resolved. */
  function OpenToken(t: NodeType): (e: seq<Event>)
    ensures t.IsStart() <==> |e| == 1
    ensures !t.IsStart() <==> e == []
  {
    match t
    case StartObject => [ObjectOpen]
    case StartArray => [ArrayOpen]
    case _ => []
  }

  /** The key of the next child of an object level. */
  function KeyFor(pending: Option<string>, counter: UInt32): string {
    if pending.Some? then pending.value else AutoLabel(counter)
  }

  /** The writer calls made by writeName. */
  function NameEvents(t: NodeType, pending: Option<string>, counter: UInt32): seq<Event> {
    if t.IsObjectKind() then OpenToken(t) + [Key(KeyFor(pending, counter))] else OpenToken(t)
  }

  /** The top counter after writeName: only an unnamed object child uses it up. */
  function CounterAfterName(t: NodeType, pending: Option<string>, counter: UInt32): UInt32 {
    if t.IsObjectKind() && pending.None? then NextCount(counter) else counter
  }

  /** The pending name after writeName: an array level returns before clearing it. */
  function PendingAfterName(t: NodeType, pending: Option<string>): Option<string> {
    if t.IsObjectKind() then None else pending
  }

  /** finishNode: an unresolved level is opened first, then the matching close is written. */
  function CloseTokens(t: NodeType): seq<Event> {
    match t
    case StartArray => [ArrayOpen, ArrayClose]
    case InArray => [ArrayClose]
    case StartObject => [ObjectOpen, ObjectClose]
    case InObject => [ObjectClose]
  }

  /** The destructor closes the top level only if it was opened. */
  function FinalTokens(t: NodeType): seq<Event> {
    match t
    case InObject => [ObjectClose]
    case InArray => [ArrayClose]
    case _ => []
  }

  /** writeName on an object level opens it (only if it was unresolved) and writes exactly one key. */
  lemma ObjectLevelName(t: NodeType, pending: Option<string>, counter: UInt32)
    requires t.IsObjectKind()
    ensures NameEvents(t, pending, counter) ==
            (if t == StartObject then [ObjectOpen] else []) + [Key(KeyFor(pending, counter))]
    ensures t.Opened() == InObject
    ensures PendingAfterName(t, pending) == None
    ensures pending.Some? ==> KeyFor(pending, counter) == pending.value && CounterAfterName(t, pending, counter) == counter
    ensures pending.None? ==> KeyFor(pending, counter) == AutoLabel(counter) && CounterAfterName(t, pending, counter) == NextCount(counter)
  {
  }

  /** writeName on an array level never writes a key and leaves the name and the counter alone. */
  lemma ArrayLevelName(t: NodeType, pending: Option<string>, counter: UInt32)
    requires !t.IsObjectKind()
    ensures NameEvents(t, pending, counter) == (if t == StartArray then [ArrayOpen] else [])
    ensures forall e :: e in NameEvents(t, pending, counter) ==> !e.Key?
    ensures t.Opened() == InArray
    ensures PendingAfterName(t, pending) == pending && CounterAfterName(t, pending, counter) == counter
  {
  }

  // ---------------------------------------------------------------------
  // Balance of the writer output: the containers left open by the events are
  // exactly the levels of the node stack whose open token has been written.
  // ---------------------------------------------------------------------

  datatype Bracket = ObjectBracket | ArrayBracket

  /** The open containers after one more writer call, or None once a close does not match. */
  function BracketStep(open: Option<seq<Bracket>>, e: Event): Option<seq<Bracket>> {
    match open
    case None => None
    case Some(s) =>
      match e
      case ObjectOpen => Some(s + [ObjectBracket])
      case ArrayOpen => Some(s + [ArrayBracket])
      case ObjectClose => if |s| > 0 && Last(s) == ObjectBracket then Some(Pop(s)) else None
      case ArrayClose => if |s| > 0 && Last(s) == ArrayBracket then Some(Pop(s)) else None
      case _ => open
  }

  /** The containers the writer calls leave open, innermost last. */
  function Brackets(events: seq<Event>): Option<seq<Bracket>>
    decreases |events|
  {
    if events == [] then Some([]) else BracketStep(Brackets(Pop(events)), Last(events))
  }

  lemma BracketsAppend(events: seq<Event>, e: Event)
    ensures Brackets(events + [e]) == BracketStep(Brackets(events), e)
  {
    assert Pop(events + [e]) == events;
  }

  lemma BracketsAppend2(events: seq<Event>, e1: Event, e2: Event)
    ensures Brackets(events + [e1, e2]) == BracketStep(BracketStep(Brackets(events), e1), e2)
  {
    BracketsAppend(events, e1);
    assert events + [e1, e2] == (events + [e1]) + [e2];
    BracketsAppend(events + [e1], e2);
  }

  /** The bracket a resolved level stands for. */
  function LevelBracket(t: NodeType): seq<Bracket> {
    match t
    case InObject => [ObjectBracket]
    case InArray => [ArrayBracket]
    case _ => []
  }

  /** The brackets the resolved levels of a node stack stand for, innermost last. */
  function OpenLevels(stack: seq<NodeType>): seq<Bracket>
    decreases |stack|
  {
    if stack == [] then [] else OpenLevels(Pop(stack)) + LevelBracket(Last(stack))
  }

  lemma OpenLevelsPush(stack: seq<NodeType>, t: NodeType)
    ensures OpenLevels(stack + [t]) == OpenLevels(stack) + LevelBracket(t)
  {
    assert Pop(stack + [t]) == stack;
  }

  /**
    The invariant the output archive keeps: only the top level can still be
    unresolved, and the writer calls so far are properly nested with exactly
    the resolved levels left open.
   */
  ghost predicate BalancedState(stack: seq<NodeType>, events: seq<Event>) {
    && (forall i :: 0 <= i < |stack| - 1 ==> !stack[i].IsStart())
    && Brackets(events) == Some(OpenLevels(stack))
  }

  lemma WriteNameKeepsBalance(stack: seq<NodeType>, events: seq<Event>, pending: Option<string>, counter: UInt32)
    requires |stack| > 0 && BalancedState(stack, events)
    ensures BalancedState(WithTop(stack, Last(stack).Opened()), events + NameEvents(Last(stack), pending, counter))
  {
    var t := Last(stack);
    var below := Pop(stack);
    var key := Key(KeyFor(pending, counter));
    OpenLevelsPush(below, t);
    OpenLevelsPush(below, t.Opened());
    assert stack == below + [t];
    assert WithTop(stack, t.Opened()) == below + [t.Opened()];
    var open := OpenLevels(below);
    assert OpenLevels(stack) == open + LevelBracket(t);
    match t
    case StartObject =>
      assert NameEvents(t, pending, counter) == [ObjectOpen, key];
      BracketsAppend2(events, ObjectOpen, key);
      assert open + [] == open;
    case InObject =>
      assert NameEvents(t, pending, counter) == [key];
      BracketsAppend(events, key);
    case StartArray =>
      assert NameEvents(t, pending, counter) == [ArrayOpen];
      BracketsAppend(events, ArrayOpen);
      assert open + [] == open;
    case InArray =>
      assert events + NameEvents(t, pending, counter) == events;
  }

  lemma StartNodeKeepsBalance(stack: seq<NodeType>, events: seq<Event>)
    requires |stack| > 0 && !Last(stack).IsStart() && BalancedState(stack, events)
    ensures BalancedState(stack + [StartObject], events)
  {
    OpenLevelsPush(stack, StartObject);
    assert OpenLevels(stack) + [] == OpenLevels(stack);
    var s' := stack + [StartObject];
    forall i | 0 <= i < |s'| - 1
      ensures !s'[i].IsStart()
    {
      assert s'[i] == stack[i];
    }
  }

  lemma FinishNodeKeepsBalance(stack: seq<NodeType>, events: seq<Event>)
    requires |stack| > 0 && BalancedState(stack, events)
    ensures BalancedState(Pop(stack), events + CloseTokens(Last(stack)))
  {
    var t := Last(stack);
    var below := Pop(stack);
    var open := OpenLevels(below);
    OpenLevelsPush(below, t);
    assert stack == below + [t];
    assert OpenLevels(stack) == open + LevelBracket(t);
    assert open + [] == open;
    match t
    case StartObject =>
      BracketsAppend2(events, ObjectOpen, ObjectClose);
      assert Pop(open + [ObjectBracket]) == open;
    case InObject =>
      BracketsAppend(events, ObjectClose);
      assert Pop(open + [ObjectBracket]) == open;
    case StartArray =>
      BracketsAppend2(events, ArrayOpen, ArrayClose);
      assert Pop(open + [ArrayBracket]) == open;
    case InArray =>
      BracketsAppend(events, ArrayClose);
      assert Pop(open + [ArrayBracket]) == open;
  }

  lemma MakeArrayKeepsBalance(stack: seq<NodeType>, events: seq<Event>)
    requires |stack| > 0 && Last(stack).IsStart() && BalancedState(stack, events)
    ensures BalancedState(WithTop(stack, StartArray), events)
  {
    OpenLevelsPush(Pop(stack), Last(stack));
    OpenLevelsPush(Pop(stack), StartArray);
    assert stack == Pop(stack) + [Last(stack)];
  }

  lemma WriteValueKeepsBalance(stack: seq<NodeType>, events: seq<Event>, v: Scalar)
    requires BalancedState(stack, events)
    ensures BalancedState(stack, events + [Write(v)])
  {
    BracketsAppend(events, Write(v));
  }

  /** Destroying a balanced archive whose only level is the root leaves no container open. */
  lemma CloseCompletesDocument(stack: seq<NodeType>, events: seq<Event>)
    requires |stack| == 1 && BalancedState(stack, events)
    ensures Brackets(events + FinalTokens(stack[0])) == Some([])
  {
    OpenLevelsPush([], stack[0]);
    assert stack == [] + [stack[0]];
    match stack[0]
    case InObject =>
      BracketsAppend(events, ObjectClose);
    case InArray =>
      BracketsAppend(events, ArrayClose);
    case _ =>
      assert events + FinalTokens(stack[0]) == events;
  }

  // ---------------------------------------------------------------------
  // The archive.
  // ---------------------------------------------------------------------

  class JsonOutputArchive {
    /** `itsNodeStack`, top last. */
    var nodeStack: seq<NodeType>
    /** `itsNameCounter`, top last. */
    var nameCounter: seq<UInt32>
    /** `itsNextName`; None is the null pointer. */
    var nextName: Option<string>
    /** Every call made on the writer so far. */
    var events: seq<Event>

    /** The two stacks are pushed and popped together. */
    ghost predicate Valid()
      reads this
    {
      |nodeStack| == |nameCounter|
    }

    ghost predicate Balanced()
      reads this
    {
      BalancedState(nodeStack, events)
    }

    function Top(): NodeType
      reads this
      requires |nodeStack| > 0
    {
      Last(nodeStack)
    }

    function TopCounter(): UInt32
      reads this
      requires Valid() && |nodeStack| > 0
    {
      Last(nameCounter)
    }

    /** The root level is pushed as an unresolved object with counter 0; nothing is written. */
    constructor ()
      ensures Valid() && Balanced()
      ensures nodeStack == [StartObject] && nameCounter == [0] && nextName == None && events == []
    {
      nodeStack := [StartObject];
      nameCounter := [0];
      nextName := None;
      events := [];
      assert Brackets([]) == Some([]);
      OpenLevelsPush([], StartObject);
    }

    /** The destructor: closes the top level if its open token was written, and nothing else. */
    method Close()
      requires |nodeStack| > 0
      modifies this
      ensures events == old(events) + FinalTokens(Last(old(nodeStack)))
      ensures nodeStack == old(nodeStack) && nameCounter == old(nameCounter) && nextName == old(nextName)
      ensures old(Balanced()) && |nodeStack| == 1 ==> Brackets(events) == Some([])
    {
      if Top() == InObject {
        events := events + [ObjectClose];
      } else if Top() == InArray {
        events := events + [ArrayClose];
      }
      if old(Balanced()) && |nodeStack| == 1 {
        CloseCompletesDocument(nodeStack, old(events));
      }
    }

    /** Sets the name for the next node or value. */
    method SetNextName(name: Option<string>)
      modifies this
      ensures nextName == name
      ensures nodeStack == old(nodeStack) && nameCounter == old(nameCounter) && events == old(events)
    {
      nextName := name;
    }

    /**
      Resolves the top level and names the next child. An unresolved level
      gets its open token now. On an object level exactly one key follows:
      the pending name, which is cleared, or else "value" and the counter,
      which is then incremented. On an array level the function returns
      before touching the name or the counter.
     */
    method WriteName()
      requires Valid() && |nodeStack| > 0
      modifies this
      ensures Valid()
      ensures var t, p, c := Last(old(nodeStack)), old(nextName), Last(old(nameCounter));
              && nodeStack == WithTop(old(nodeStack), t.Opened())
              && events == old(events) + NameEvents(t, p, c)
              && nextName == PendingAfterName(t, p)
              && nameCounter == WithTop(old(nameCounter), CounterAfterName(t, p, c))
      ensures old(Balanced()) ==> Balanced()
    {
      if Balanced() {
        WriteNameKeepsBalance(nodeStack, events, nextName, TopCounter());
      }
      ResolveTop();
      // the source's `nodeType` is a reference to the top: it sees the update
      if Top() == InArray {
        return;
      }
      NameObjectChild();
    }

    /** The first half of writeName: an unresolved top level gets its open token. */
    method ResolveTop()
      requires |nodeStack| > 0
      modifies this
      ensures nodeStack == WithTop(old(nodeStack), Last(old(nodeStack)).Opened())
      ensures events == old(events) + OpenToken(Last(old(nodeStack)))
      ensures nameCounter == old(nameCounter) && nextName == old(nextName)
    {
      var nodeType := Top();
      if nodeType == StartArray {
        events := events + [ArrayOpen];
        nodeStack := WithTop(nodeStack, InArray);
      } else if nodeType == StartObject {
        nodeStack := WithTop(nodeStack, InObject);
        events := events + [ObjectOpen];
      }
    }

    /** The second half of writeName on an object level: exactly one key. */
    method NameObjectChild()
      requires Valid() && |nodeStack| > 0
      modifies this
      ensures var p, c := old(nextName), Last(old(nameCounter));
              && events == old(events) + [Key(KeyFor(p, c))]
              && nextName == None
              && nameCounter == WithTop(old(nameCounter), if p.None? then NextCount(c) else c)
      ensures nodeStack == old(nodeStack)
    {
      if nextName.None? {
        var name := AutoLabel(TopCounter());
        nameCounter := WithTop(nameCounter, NextCount(TopCounter()));
        events := events + [Key(name)];
      } else {
        events := events + [Key(nextName.value)];
        nextName := None;
      }
    }

    /** Names the new node in its parent, then pushes an unresolved object level with counter 0. */
    method StartNode()
      requires Valid() && |nodeStack| > 0
      modifies this
      ensures Valid()
      ensures nodeStack == WithTop(old(nodeStack), Last(old(nodeStack)).Opened()) + [StartObject]
      ensures nameCounter == WithTop(old(nameCounter), CounterAfterName(Last(old(nodeStack)), old(nextName), Last(old(nameCounter)))) + [0]
      ensures events == old(events) + NameEvents(Last(old(nodeStack)), old(nextName), Last(old(nameCounter)))
      ensures nextName == PendingAfterName(Last(old(nodeStack)), old(nextName))
      ensures old(Balanced()) ==> Balanced()
    {
      WriteName();
      if Balanced() {
        StartNodeKeepsBalance(nodeStack, events);
      }
      nodeStack := nodeStack + [StartObject];
      nameCounter := nameCounter + [0];
    }

    /** Closes the top level (opening it first if no child was written) and pops both stacks. */
    method FinishNode()
      requires Valid() && |nodeStack| > 0
      modifies this
      ensures Valid()
      ensures nodeStack == Pop(old(nodeStack)) && nameCounter == Pop(old(nameCounter))
      ensures events == old(events) + CloseTokens(Last(old(nodeStack)))
      ensures nextName == old(nextName)
      ensures old(Balanced()) ==> Balanced()
    {
      if old(Balanced()) {
        FinishNodeKeepsBalance(nodeStack, events);
      }
      var closing: seq<Event>;
      match Top() {
        case StartArray =>
          closing := [ArrayOpen, ArrayClose];
        case InArray =>
          closing := [ArrayClose];
        case StartObject =>
          closing := [ObjectOpen, ObjectClose];
        case InObject =>
          closing := [ObjectClose];
      }
      events := events + closing;
      nodeStack := Pop(nodeStack);
      nameCounter := Pop(nameCounter);
    }

    /**
      Marks the top level as an array. The source assigns unconditionally;
      the balance is kept when the level was still unresolved, which is the
      order the size-tag prologue guarantees.
     */
    method MakeArray()
      requires |nodeStack| > 0
      modifies this
      ensures nodeStack == WithTop(old(nodeStack), StartArray)
      ensures nameCounter == old(nameCounter) && nextName == old(nextName) && events == old(events)
      ensures old(Balanced()) && Last(old(nodeStack)).IsStart() ==> Balanced()
    {
      if Balanced() && Top().IsStart() {
        MakeArrayKeepsBalance(nodeStack, events);
      }
      nodeStack := WithTop(nodeStack, StartArray);
    }

    /** The scalar `saveValue` overloads: one writer call, no state change. */
    method SaveValue(v: Scalar)
      modifies this
      ensures events == old(events) + [Write(v)]
      ensures nodeStack == old(nodeStack) && nameCounter == old(nameCounter) && nextName == old(nextName)
      ensures old(Balanced()) ==> Balanced()
    {
      if Balanced() {
        WriteValueKeepsBalance(nodeStack, events, v);
      }
      events := events + [Write(v)];
    }

    /**
      Binary data: the given name (possibly none, which clears a pending one)
      is set, the position is named, and the encoded text is written as a string.
     */
    method SaveBinaryValue(data: seq<Byte>, name: Option<string>, encode: seq<Byte> -> string)
      requires Valid() && |nodeStack| > 0
      modifies this
      ensures Valid()
      ensures nodeStack == WithTop(old(nodeStack), Last(old(nodeStack)).Opened())
      ensures events == old(events) + NameEvents(Last(old(nodeStack)), name, Last(old(nameCounter))) + [Write(Str(encode(data)))]
      ensures nextName == PendingAfterName(Last(old(nodeStack)), name)
      ensures nameCounter == WithTop(old(nameCounter), CounterAfterName(Last(old(nodeStack)), name, Last(old(nameCounter))))
      ensures old(Balanced()) ==> Balanced()
    {
      SetNextName(name);
      WriteName();
      SaveValue(Str(encode(data)));
    }
  }
}
