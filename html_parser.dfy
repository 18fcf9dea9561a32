/**
 * `HTMLParser`: a tree builder driven by the events of Foundation's
 * `XMLParser`. The XML tokeniser itself is foreign; its output is the event
 * sequence given to the builder. `BuildState`/`Step`/`Run` are the value of
 * the builder and its transition function; the class `HTMLParser` keeps the
 * element stack and root in place, and each handler is proved to perform
 * `Step`.
 */
module HTMLParsing {
  import opened Wrappers
  import opened SwiftText
  import opened ElementTree
  import opened HTMLParserErrors
  import opened HTMLTags

  /** An error reported by `XMLParser` (its `NSError` code), or one of the parser's own. */
  datatype ParseFailure = Html(error: HTMLParserError) | Xml(code: int)

  /** The delegate callbacks `XMLParser` makes. */
  datatype Event =
    | StartElement(name: string, attributes: map<string, string>)
    | Characters(chunk: string)
    | EndElement(name: string)
    | EndDocument
    | ParseErrorOccurred(code: int)
    | ValidationErrorOccurred(code: int)

  /** Where the root is: none started yet, still open at the bottom of the stack, or closed. */
  datatype RootState = NoRoot | OpenRoot | ClosedRoot(tree: Node)

  /** A completion call: `success` with the root element, or `failure`. */
  datatype Outcome = Delivered(tree: Node) | Failed(failure: ParseFailure)

  datatype BuildState = BuildState(stack: seq<Node>, root: RootState, outcomes: seq<Outcome>)

  const Initial: BuildState := BuildState([], NoRoot, [])

  /** The tree the root has in a state, if any element was started. */
  function RootTree(st: BuildState): Option<Node> {
    match st.root
    case NoRoot => None
    case OpenRoot => if st.stack != [] then Some(st.stack[0]) else None
    case ClosedRoot(t) => Some(t)
  }

  /**
   * The text a character chunk leaves in an element: sentinels turned back
   * into tags one tag after another, then the first chunk trimmed of
   * whitespace, later ones of newlines.
   */
  function AddText(n: Node, chunk: string): Node {
    var restored := RestoreTagsAsWritten(chunk);
    n.(text := Some(if n.text.Some? then n.text.value + Trim(restored, IsNewline)
                    else Trim(restored, IsWhitespaceOrNewline)))
  }

  predicate IsBlank(chunk: string) {
    Trim(chunk, IsWhitespaceOrNewline) == []
  }

  function AddChild(parent: Node, child: Node): Node {
    parent.(children := parent.children + [child])
  }

  /** The effect of one delegate callback. An end event needs an open element: `removeLast` traps otherwise. */
  function Step(st: BuildState, ev: Event): BuildState
    requires ev.EndElement? ==> st.stack != []
  {
    match ev
    case StartElement(name, attributes) =>
      st.(stack := st.stack + [Node(name, attributes, None, [])],
          root := if st.root.NoRoot? then OpenRoot else st.root)
    case Characters(chunk) =>
      if st.stack == [] || IsBlank(chunk) then st
      else st.(stack := st.stack[..|st.stack| - 1] + [AddText(st.stack[|st.stack| - 1], chunk)])
    case EndElement(_) =>
      var top := st.stack[|st.stack| - 1];
      var rest := st.stack[..|st.stack| - 1];
      if rest != [] then st.(stack := rest[..|rest| - 1] + [AddChild(rest[|rest| - 1], top)])
      else st.(stack := [], root := if st.root.OpenRoot? then ClosedRoot(top) else st.root)
    case EndDocument =>
      st.(outcomes := st.outcomes + [if RootTree(st).Some? then Delivered(RootTree(st).value) else Failed(Html(EmptyHTML))])
    case ParseErrorOccurred(code) =>
      st.(outcomes := st.outcomes + [Failed(Xml(code))])
    case ValidationErrorOccurred(code) =>
      st.(outcomes := st.outcomes + [Failed(Xml(code))])
  }

  /** Every end event in `events` finds an open element when the stack starts `depth` deep. */
  predicate Nested(depth: nat, events: seq<Event>)
    decreases |events|
  {
    events == []
    || match events[0]
       case StartElement(_, _) => Nested(depth + 1, events[1..])
       case EndElement(_) => depth > 0 && Nested(depth - 1, events[1..])
       case _ => Nested(depth, events[1..])
  }

  /**
   * The state after a sequence of callbacks. An end callback with no open
   * element traps in `removeLast`; the run stops there. Well-nested
   * sequences (`Nested`) never reach that point.
   */
  function Run(st: BuildState, events: seq<Event>): BuildState
    decreases |events|
  {
    if events == [] then st
    else if events[0].EndElement? && st.stack == [] then st
    else Run(Step(st, events[0]), events[1..])
  }

  /** The stack depth after an event. */
  function Depth(depth: nat, ev: Event): int {
    match ev
    case StartElement(_, _) => depth + 1
    case EndElement(_) => depth - 1
    case _ => depth
  }

  lemma StepDepth(st: BuildState, ev: Event)
    requires ev.EndElement? ==> st.stack != []
    ensures |Step(st, ev).stack| == Depth(|st.stack|, ev)
  {
  }

  /** Running a non-empty sequence is one step followed by the rest. */
  lemma RunCons(st: BuildState, ev: Event, rest: seq<Event>)
    requires ev.EndElement? ==> st.stack != []
    ensures Run(st, [ev] + rest) == Run(Step(st, ev), rest)
  {
    assert ([ev] + rest)[1..] == rest;
  }

  lemma NestedCons(depth: nat, ev: Event, rest: seq<Event>)
    requires ev.EndElement? ==> depth > 0
    requires Nested(Depth(depth, ev), rest)
    ensures Nested(depth, [ev] + rest)
  {
    assert ([ev] + rest)[1..] == rest;
  }

  /** The first step of a well-nested run is allowed and leaves the rest well nested. */
  lemma RunFirst(st: BuildState, events: seq<Event>)
    requires events != [] && Nested(|st.stack|, events)
    ensures events[0].EndElement? ==> st.stack != []
    ensures Nested(|Step(st, events[0]).stack|, events[1..])
  {
    if events[0].EndElement? {
      assert st.stack != [];
    }
    StepDepth(st, events[0]);
  }

  /** Once the root is closed it is never replaced, whatever events follow. */
  lemma {:induction false} ClosedRootStays(st: BuildState, events: seq<Event>)
    requires st.root.ClosedRoot?
    ensures Run(st, events).root == st.root
    decreases |events|
  {
    if events != [] && !(events[0].EndElement? && st.stack == []) {
      var st1 := Step(st, events[0]);
      assert st1.root == st.root;
      ClosedRootStays(st1, events[1..]);
    }
  }

  /** The root state is coherent with the stack: an open root is at the bottom of a non-empty stack. */
  predicate Coherent(st: BuildState) {
    (st.root.NoRoot? ==> st.stack == []) && (st.root.OpenRoot? ==> st.stack != [])
  }

  /** Steps keep the state coherent, and the root, once started, stays started. */
  lemma StepCoherent(st: BuildState, ev: Event)
    requires Coherent(st) && (ev.EndElement? ==> st.stack != [])
    ensures Coherent(Step(st, ev))
    ensures !st.root.NoRoot? ==> !Step(st, ev).root.NoRoot?
    ensures st.root.NoRoot? && ev.StartElement? ==> Step(st, ev).root == OpenRoot
  {
  }

  /** A start event pushes a fresh element; the first one opens the root. */
  lemma StepStart(st: BuildState, name: string, attributes: map<string, string>)
    ensures Step(st, StartElement(name, attributes))
      == BuildState(st.stack + [Node(name, attributes, None, [])],
                    if st.root.NoRoot? then OpenRoot else st.root, st.outcomes)
  {
  }

  /** A non-blank chunk changes only the text of the innermost element. */
  lemma StepCharacters(st: BuildState, below: seq<Node>, top: Node, chunk: string)
    requires st.stack == below + [top] && !IsBlank(chunk)
    ensures Step(st, Characters(chunk)) == st.(stack := below + [AddText(top, chunk)])
  {
    assert st.stack[..|st.stack| - 1] == below;
  }

  /** An end event with an open parent appends the innermost element to it. */
  lemma StepEndInner(st: BuildState, below: seq<Node>, parent: Node, top: Node, name: string)
    requires st.stack == below + [parent, top]
    ensures Step(st, EndElement(name)) == st.(stack := below + [AddChild(parent, top)])
  {
    var rest := st.stack[..|st.stack| - 1];
    assert rest == below + [parent];
    assert rest[..|rest| - 1] == below;
  }

  /** An end event for the outermost element closes an open root with that element. */
  lemma StepEndOuter(st: BuildState, top: Node, name: string)
    requires st.stack == [top]
    ensures Step(st, EndElement(name))
      == st.(stack := [], root := if st.root.OpenRoot? then ClosedRoot(top) else st.root)
  {
  }

  /** The end of the document and reported errors only add an outcome. */
  lemma StepOutcome(st: BuildState, ev: Event)
    requires ev.EndDocument? || ev.ParseErrorOccurred? || ev.ValidationErrorOccurred?
    ensures Step(st, ev) == st.(outcomes := st.outcomes + [
      if ev.EndDocument? then (if RootTree(st).Some? then Delivered(RootTree(st).value) else Failed(Html(EmptyHTML)))
      else Failed(Xml(ev.code))])
  {
  }

  // ---------------------------------------------------------------------
  // Round trip: the events of a tree build that tree.
  // ---------------------------------------------------------------------

  /** Texts the builder stores unchanged: non-empty, already trimmed, and free of the sentinel marker. */
  predicate StorableText(t: string) {
    t != [] && Trim(t, IsWhitespaceOrNewline) == t && !HasMarker(t)
  }

  predicate StorableTree(n: Node)
    decreases n, 1
  {
    (n.text.Some? ==> StorableText(n.text.value)) && StorableForest(n.children)
  }

  predicate StorableForest(ns: seq<Node>)
    decreases ns, 0
  {
    ns == [] || (StorableTree(ns[0]) && StorableForest(ns[1..]))
  }

  /** The callbacks `XMLParser` makes for a tree: start, its text, each child, end. */
  function Serialize(n: Node): seq<Event>
    decreases n, 1
  {
    Opening(n) + SerializeAll(n.children) + [EndElement(n.name)]
  }

  /** The start callback and the text callback, if the element has text. */
  function Opening(n: Node): seq<Event> {
    [StartElement(n.name, n.attributes)] + (if n.text.Some? then [Characters(n.text.value)] else [])
  }

  function SerializeAll(ns: seq<Node>): seq<Event>
    decreases ns, 0
  {
    if ns == [] then [] else Serialize(ns[0]) + SerializeAll(ns[1..])
  }

  /** What finishing a subtree `n` does to a state: attach it to the open parent, or close the root. */
  function Attach(st: BuildState, n: Node): (r: BuildState)
    ensures |r.stack| == |st.stack|
  {
    if st.stack != [] then st.(stack := st.stack[..|st.stack| - 1] + [AddChild(st.stack[|st.stack| - 1], n)])
    else if st.root.NoRoot? then st.(root := ClosedRoot(n))
    else st
  }

  function AttachAll(st: BuildState, ns: seq<Node>): (r: BuildState)
    ensures |r.stack| == |st.stack|
    decreases |ns|
  {
    if ns == [] then st else AttachAll(Attach(st, ns[0]), ns[1..])
  }

  lemma StoredTextUnchanged(t: string)
    requires StorableText(t)
    ensures !IsBlank(t)
    ensures Trim(RestoreTagsAsWritten(t), IsWhitespaceOrNewline) == t
  {
    RestoreAsWrittenWithoutMarker(t);
  }

  /** The first text an element receives is stored as it is, when it is storable. */
  lemma FirstText(m: Node, t: string)
    requires m.text.None? && StorableText(t)
    ensures !IsBlank(t) && AddText(m, t) == m.(text := Some(t))
  {
    StoredTextUnchanged(t);
  }

  lemma {:induction false} AttachAllToTop(st: BuildState, ns: seq<Node>)
    requires st.stack != []
    ensures AttachAll(st, ns).stack
      == st.stack[..|st.stack| - 1] + [st.stack[|st.stack| - 1].(children := st.stack[|st.stack| - 1].children + ns)]
    ensures AttachAll(st, ns).root == st.root && AttachAll(st, ns).outcomes == st.outcomes
    decreases |ns|
  {
    if ns != [] {
      var top := st.stack[|st.stack| - 1];
      var st1 := Attach(st, ns[0]);
      AttachAllToTop(st1, ns[1..]);
      assert st1.stack[..|st1.stack| - 1] == st.stack[..|st.stack| - 1];
      assert top.children + [ns[0]] + ns[1..] == top.children + ns;
    } else {
      assert st.stack[|st.stack| - 1].children + ns == st.stack[|st.stack| - 1].children;
      assert st.stack == st.stack[..|st.stack| - 1] + [st.stack[|st.stack| - 1]];
    }
  }

  /** Running the events of a storable tree, followed by any well-nested `rest`, attaches the tree and then runs `rest`. */
  /** The state once an element's opening callbacks have run: the element is on top, children not yet added. */
  function Opened(st: BuildState, n: Node): BuildState {
    st.(stack := st.stack + [n.(children := [])], root := if st.root.NoRoot? then OpenRoot else st.root)
  }

  lemma OpeningSteps(st: BuildState, n: Node, mid: seq<Event>)
    requires Coherent(st) && (n.text.Some? ==> StorableText(n.text.value))
    ensures Run(st, Opening(n) + mid) == Run(Opened(st, n), mid)
  {
    var start := StartElement(n.name, n.attributes);
    var st1 := Step(st, start);
    var textEvents: seq<Event> := if n.text.Some? then [Characters(n.text.value)] else [];
    if n.text.Some? {
      var bare := Node(n.name, n.attributes, None, []);
      StepStart(st, n.name, n.attributes);
      StepCharacters(st1, st.stack, bare, n.text.value);
      FirstText(bare, n.text.value);
      assert Step(st1, Characters(n.text.value)) == Opened(st, n);
      RunCons(st1, Characters(n.text.value), mid);
    } else {
      assert st1 == Opened(st, n);
      assert textEvents + mid == mid;
    }
    RunCons(st, start, textEvents + mid);
    assert Opening(n) + mid == [start] + (textEvents + mid);
  }

  lemma ClosingStep(st: BuildState, n: Node)
    requires Coherent(st)
    ensures AttachAll(Opened(st, n), n.children).stack == st.stack + [n]
    ensures Step(AttachAll(Opened(st, n), n.children), EndElement(n.name)) == Attach(st, n)
  {
    var st2 := Opened(st, n);
    AttachAllToTop(st2, n.children);
    assert (st.stack + [n.(children := [])])[..|st.stack|] == st.stack;
    assert [] + n.children == n.children;
    assert (st.stack + [n])[..|st.stack|] == st.stack;
  }

  lemma {:induction false} RunSerialize(st: BuildState, n: Node, rest: seq<Event>)
    requires Coherent(st) && StorableTree(n)
    ensures Run(st, Serialize(n) + rest) == Run(Attach(st, n), rest)
    decreases n, 1
  {
    var st2 := Opened(st, n);
    var done := AttachAll(st2, n.children);
    var end := EndElement(n.name);
    var tail := [end] + rest;
    var mid := SerializeAll(n.children) + tail;
    assert Serialize(n) + rest == Opening(n) + mid;
    OpeningSteps(st, n, mid);
    RunSerializeAll(st2, n.children, tail);
    ClosingStep(st, n);
    RunCons(done, end, rest);
  }

  lemma {:induction false} RunSerializeAll(st: BuildState, ns: seq<Node>, rest: seq<Event>)
    requires Coherent(st) && StorableForest(ns) && st.stack != []
    ensures Run(st, SerializeAll(ns) + rest) == Run(AttachAll(st, ns), rest)
    decreases ns, 0
  {
    if ns == [] {
      assert SerializeAll(ns) + rest == rest;
    } else {
      var st1 := Attach(st, ns[0]);
      assert Coherent(st1) && |st1.stack| == |st.stack|;
      RunSerializeAll(st1, ns[1..], rest);
      var tail := SerializeAll(ns[1..]) + rest;
      RunSerialize(st, ns[0], tail);
      assert SerializeAll(ns) + rest == Serialize(ns[0]) + tail;
    }
  }

  /** The callbacks of a tree are well nested: every end matches an earlier start. */
  lemma {:induction false} SerializeNested(depth: nat, n: Node, rest: seq<Event>)
    requires Nested(depth, rest)
    ensures Nested(depth, Serialize(n) + rest)
    decreases n, 1
  {
    var end := EndElement(n.name);
    NestedCons(depth + 1, end, rest);
    var tail := [end] + rest;
    SerializeAllNested(depth + 1, n.children, tail);
    var mid := SerializeAll(n.children) + tail;
    OpeningNested(depth, n, mid);
    assert Serialize(n) + rest == Opening(n) + mid;
  }

  lemma OpeningNested(depth: nat, n: Node, mid: seq<Event>)
    requires Nested(depth + 1, mid)
    ensures Nested(depth, Opening(n) + mid)
  {
    var start := StartElement(n.name, n.attributes);
    if n.text.Some? {
      NestedCons(depth + 1, Characters(n.text.value), mid);
      NestedCons(depth, start, [Characters(n.text.value)] + mid);
      assert Opening(n) + mid == [start] + ([Characters(n.text.value)] + mid);
    } else {
      NestedCons(depth, start, mid);
      assert Opening(n) + mid == [start] + mid;
    }
  }

  lemma {:induction false} SerializeAllNested(depth: nat, ns: seq<Node>, rest: seq<Event>)
    requires Nested(depth, rest)
    ensures Nested(depth, SerializeAll(ns) + rest)
    decreases ns, 0
  {
    if ns == [] {
      assert SerializeAll(ns) + rest == rest;
    } else {
      SerializeAllNested(depth, ns[1..], rest);
      SerializeNested(depth, ns[0], SerializeAll(ns[1..]) + rest);
      assert SerializeAll(ns) + rest == Serialize(ns[0]) + (SerializeAll(ns[1..]) + rest);
    }
  }

  /** The events of a storable tree, then end-of-document, are well nested and deliver exactly that tree as the root. */
  lemma ParseRoundTrip(n: Node)
    requires StorableTree(n)
    ensures Nested(0, Serialize(n) + [EndDocument])
    ensures Run(Initial, Serialize(n) + [EndDocument]) == BuildState([], ClosedRoot(n), [Delivered(n)])
  {
    var rest := [EndDocument];
    assert Nested(0, rest) by {
      assert rest[1..] == [];
    }
    SerializeNested(0, n, rest);
    RunSerialize(Initial, n, rest);
    var st := Attach(Initial, n);
    assert st == BuildState([], ClosedRoot(n), []);
    assert Run(st, rest) == Run(Step(st, EndDocument), []) by {
      assert rest[1..] == [];
    }
  }

  // ---------------------------------------------------------------------
  // The parser object.
  // ---------------------------------------------------------------------

  /** Foundation's share of `parse(html:)`: UTF-8 encoding and the XML tokeniser. */
  datatype Foundation = Foundation(utf8: string -> Option<seq<bv8>>, xmlEvents: seq<bv8> -> seq<Event>)

  /** `XMLParser` never ends an element it has not started. */
  ghost predicate WellNested(f: Foundation) {
    forall data :: Nested(0, f.xmlEvents(data))
  }

  /** `parse(html:)`'s `forEach`: each `<tag>` in turn becomes its sentinel. */
  method SubstituteEachTag(html: string) returns (newHtml: string)
    ensures newHtml == SubstituteTagsAsWritten(html)
  {
    newHtml := html;
    var i := 0;
    while i < |TagsToReplace|
      invariant 0 <= i <= |TagsToReplace|
      invariant ReplaceEachTag(newHtml, TagsToReplace[i..], false) == SubstituteTagsAsWritten(html)
    {
      var tag := TagsToReplace[i];
      assert TagsToReplace[i..][1..] == TagsToReplace[i + 1..];
      newHtml := ReplaceAll(newHtml, OpenTag(tag), Sentinel(tag));
      i := i + 1;
    }
  }

  /** `foundCharacters` on the innermost element: restore the tags, then set or extend its text. */
  method AppendChunk(current: Node, chunk: string) returns (updated: Node)
    ensures updated == AddText(current, chunk)
  {
    var text := RestoreEachTag(chunk);
    if current.text.Some? {
      updated := current.(text := Some(current.text.value + Trim(text, IsNewline)));
    } else {
      updated := current.(text := Some(Trim(text, IsWhitespaceOrNewline)));
    }
  }

  /** `foundCharacters`' `forEach`: each tag's sentinel in turn becomes the tag. */
  method RestoreEachTag(chunk: string) returns (text: string)
    ensures text == RestoreTagsAsWritten(chunk)
  {
    text := chunk;
    var i := 0;
    while i < |TagsToReplace|
      invariant 0 <= i <= |TagsToReplace|
      invariant ReplaceEachTag(text, TagsToReplace[i..], true) == RestoreTagsAsWritten(chunk)
    {
      var tag := TagsToReplace[i];
      assert TagsToReplace[i..][1..] == TagsToReplace[i + 1..];
      text := ReplaceAll(text, Sentinel(tag), OpenTag(tag));
      i := i + 1;
    }
  }

  /**
   * The parser object. Its stack holds the open elements as values; the
   * `root` reference, which aliases the bottom of the stack until that
   * element is closed, is kept as a `RootState`.
   */
  class HTMLParser {
    var elements: seq<Node>
    var root: RootState
    /** The calls made to the completion handler, in order. */
    var results: seq<Outcome>

    function State(): BuildState
      reads this
    {
      BuildState(elements, root, results)
    }

    constructor ()
      ensures State() == Initial
    {
      elements := [];
      root := NoRoot;
      results := [];
    }

    /** `didStartElement`: push a new element; the first one ever started becomes the root. */
    method DidStartElement(name: string, attributes: map<string, string>)
      modifies this
      ensures State() == Step(old(State()), StartElement(name, attributes))
    {
      var element := Node(name, attributes, None, []);
      elements := elements + [element];
      if root.NoRoot? {
        root := OpenRoot;
      }
    }

    /** `foundCharacters`: add the chunk, tags restored, to the innermost open element. */
    method FoundCharacters(chunk: string)
      modifies this
      ensures State() == Step(old(State()), Characters(chunk))
    {
      if elements == [] || IsBlank(chunk) {
        return;
      }
      var below := elements[..|elements| - 1];
      var current := elements[|elements| - 1];
      StepCharacters(State(), below, current, chunk);
      var updated := AppendChunk(current, chunk);
      elements := below + [updated];
    }

    /** `didEndElement`: pop the innermost element and append it to its parent's children. */
    method DidEndElement(name: string)
      requires elements != []
      modifies this
      ensures State() == Step(old(State()), EndElement(name))
    {
      var element := elements[|elements| - 1];
      elements := elements[..|elements| - 1];
      if elements != [] {
        var parent := elements[|elements| - 1];
        elements := elements[..|elements| - 1] + [parent.(children := parent.children + [element])];
      } else if root.OpenRoot? {
        root := ClosedRoot(element);
      }
    }

    /** `parserDidEndDocument`: success with the root if an element was ever started, else `emptyHTML`. */
    method DidEndDocument()
      modifies this
      ensures State() == Step(old(State()), EndDocument)
    {
      var rootElement := RootTree(State());
      if rootElement.Some? {
        results := results + [Delivered(rootElement.value)];
      } else {
        results := results + [Failed(Html(EmptyHTML))];
      }
    }

    /** `parseErrorOccurred` and `validationErrorOccurred`: forward the error. */
    method DidFail(code: int)
      modifies this
      ensures State() == Step(old(State()), ParseErrorOccurred(code))
      ensures State() == Step(old(State()), ValidationErrorOccurred(code))
    {
      results := results + [Failed(Xml(code))];
    }

    /** Dispatches one callback. */
    method Handle(ev: Event)
      requires ev.EndElement? ==> elements != []
      modifies this
      ensures State() == Step(old(State()), ev)
    {
      match ev
      case StartElement(name, attributes) => DidStartElement(name, attributes);
      case Characters(chunk) => FoundCharacters(chunk);
      case EndElement(name) => DidEndElement(name);
      case EndDocument => DidEndDocument();
      case ParseErrorOccurred(code) => DidFail(code);
      case ValidationErrorOccurred(code) => DidFail(code);
    }

    /** `parse(data:)`: `XMLParser` delivers its callbacks in order. */
    method ParseEvents(events: seq<Event>)
      requires Nested(|elements|, events)
      modifies this
      ensures State() == Run(old(State()), events)
    {
      var i := 0;
      while i < |events|
        invariant 0 <= i <= |events|
        invariant Nested(|elements|, events[i..])
        invariant Run(State(), events[i..]) == Run(old(State()), events)
      {
        RunFirst(State(), events[i..]);
        assert events[i..][1..] == events[i + 1..];
        Handle(events[i]);
        i := i + 1;
      }
    }

    /** `parse(html:)`: substitute the inline tags, encode as UTF-8, and parse. */
    method Parse(html: string, foundation: Foundation)
      requires elements == [] && WellNested(foundation)
      modifies this
      ensures foundation.utf8(SubstituteTagsAsWritten(html)).None? ==>
        State() == old(State()).(outcomes := old(results) + [Failed(Html(NonValidHTML))])
      ensures foundation.utf8(SubstituteTagsAsWritten(html)).Some? ==>
        State() == Run(old(State()), foundation.xmlEvents(foundation.utf8(SubstituteTagsAsWritten(html)).value))
    {
      var newHtml := SubstituteEachTag(html);
      var data := foundation.utf8(newHtml);
      if data.None? {
        results := results + [Failed(Html(NonValidHTML))];
        return;
      }
      ParseEvents(foundation.xmlEvents(data.value));
    }
  }
}
