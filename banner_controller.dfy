/**
 * `AcceleraBannerViewController`: parses the HTML, builds the tree of
 * Accelera views while the views prepare themselves, lays the tree out in a
 * new banner and reports to its delegate.
 *
 * The views are kept as values (`ViewNode`); a view is joined to its parent
 * when it is finished rather than when it is created, which gives the same
 * tree because nothing reads a parent's descendents while it is being built.
 */
module BannerController {
  import opened Wrappers
  import opened ElementTree
  import opened HTMLParserErrors
  import opened HTMLTags
  import opened Config
  import opened ViewTree
  import opened BannerPlan
  import HTMLParsing
  import RenderingElement
  import BannerViews

  /** What the controller reports to `AcceleraViewDelegate`, in order. */
  datatype DelegateEvent =
    | OnReady(bannerType: BannerType)
    | OnAdded
    | OnError(error: DelegateError)
    | OnAction(action: string)
    | OnClose

  datatype DelegateError = Message(text: string) | Parsing(failure: HTMLParsing.ParseFailure)

  const AlreadyCreating: string := "Already creating a banner. Wait for completion"
  const NotCreated: string := "View was not created properly"

  /** The `DispatchGroup`'s counts of `enter()` and `leave()` calls. */
  datatype Group = Group(entered: nat, left: nat)

  /** A group after `n` elements each entered and left it; calls on a missing group do nothing. */
  function Counted(g: Option<Group>, n: nat): (r: Option<Group>)
    ensures r.Some? <==> g.Some?
    ensures r.Some? ==> r.value.entered - r.value.left == g.value.entered - g.value.left
  {
    if g.Some? then Some(Group(g.value.entered + n, g.value.left + n)) else None
  }

  function Enter(g: Option<Group>): (r: Option<Group>)
    ensures r.Some? <==> g.Some?
    ensures r.Some? ==> r.value == g.value.(entered := g.value.entered + 1)
  {
    if g.Some? then Some(g.value.(entered := g.value.entered + 1)) else None
  }

  function Leave(g: Option<Group>): (r: Option<Group>)
    ensures r.Some? <==> g.Some?
    ensures r.Some? ==> r.value == g.value.(left := g.value.left + 1)
  {
    if g.Some? then Some(g.value.(left := g.value.left + 1)) else None
  }

  /** The group's state at `wait()` lets it return: every `enter()` was matched by a `leave()`. */
  predicate Balanced(g: Group) {
    g.entered == g.left
  }

  predicate AllBalanced(gs: seq<Group>) {
    forall k :: 0 <= k < |gs| ==> Balanced(gs[k])
  }

  /** The delegate calls one parser result can lead to: its error, or for a document `onReady` or "not created". */
  function Reported(result: HTMLParsing.Outcome, readyType: BannerType): set<DelegateEvent> {
    match result
    case Failed(failure) => {OnError(Parsing(failure))}
    case Delivered(_) => {OnReady(readyType), OnError(Message(NotCreated))}
  }

  /** One delegate call per result, each one the result can lead to. */
  predicate ReportsFor(events: seq<DelegateEvent>, results: seq<HTMLParsing.Outcome>, readyType: BannerType) {
    |events| == |results| && forall k :: 0 <= k < |events| ==> events[k] in Reported(results[k], readyType)
  }

  lemma ReportsSnoc(events: seq<DelegateEvent>, results: seq<HTMLParsing.Outcome>, i: nat, readyType: BannerType, e: DelegateEvent)
    requires i < |results| && ReportsFor(events, results[..i], readyType) && e in Reported(results[i], readyType)
    ensures ReportsFor(events + [e], results[..i + 1], readyType)
  {
    assert results[..i + 1][..i] == results[..i];
  }

  /** The parsing state: parent stack, top view, next identifier, group, and the elements created so far. */
  datatype Walk = Walk(stack: seq<ViewNode>, top: Option<ViewNode>, next: nat, group: Option<Group>, created: seq<Node>)

  /**
   * The state after `parseElement(e)`: the views of `e` attached, the
   * identifiers they took used up, every element of `e` entered and left
   * once, and all of them passed to `createView` in pre-order.
   */
  function Walked(w: Walk, e: Node): Walk {
    var b := Flatten(e, w.next);
    var p := Attach(w.stack, w.top, b.views);
    Walk(p.stack, p.top, b.next, Counted(w.group, |PreOrder(e)|), w.created + PreOrder(e))
  }

  function WalkedAll(w: Walk, es: seq<Node>): Walk {
    var b := FlattenAll(es, w.next);
    var p := Attach(w.stack, w.top, b.views);
    Walk(p.stack, p.top, b.next, Counted(w.group, |PreOrderAll(es)|), w.created + PreOrderAll(es))
  }

  /** `enter()` and `createView` with its completion, for one element. */
  function Visited(w: Walk, e: Node): Walk {
    w.(group := Leave(Enter(w.group)), created := w.created + [e])
  }

  /** The innermost open view finished and attached to what is open below it. */
  function Closed(w: Walk): Walk
    requires w.stack != []
  {
    var p := Attach(w.stack[..|w.stack| - 1], w.top, [w.stack[|w.stack| - 1]]);
    w.(stack := p.stack, top := p.top)
  }

  lemma WalkedNothing(w: Walk)
    ensures WalkedAll(w, []) == w
  {
    AttachNothing(w.stack, w.top);
  }

  /** Walking one more child is walking it after the ones before. */
  lemma WalkedAllSnoc(w: Walk, es: seq<Node>, i: nat)
    requires i < |es|
    ensures WalkedAll(w, es[..i + 1]) == Walked(WalkedAll(w, es[..i]), es[i])
  {
    var front := FlattenAll(es[..i], w.next);
    FlattenAllSnoc(es, i, w.next);
    AttachAppend(w.stack, w.top, front.views, Flatten(es[i], front.next).views);
    PreOrderAllSnoc(es, i);
  }

  /** An element with an unknown tag only passes its children's views on. */
  lemma WalkedPlain(w: Walk, e: Node)
    requires KindOf(e.name).None?
    ensures Walked(w, e) == WalkedAll(Visited(w, e), e.children)
  {
    assert PreOrder(e) == [e] + PreOrderAll(e.children);
  }

  /**
   * An element with a known tag opens a view, its children's views become
   * that view's descendents, and the finished view is attached as a whole.
   */
  lemma WalkedView(w: Walk, e: Node)
    requires KindOf(e.name).Some?
    ensures var v := ViewNode(w.next, KindOf(e.name).value, e, []);
      var inner := WalkedAll(Visited(w, e).(stack := w.stack + [v], next := w.next + 1), e.children);
      inner.stack == w.stack + [v.(descendents := FlattenAll(e.children, w.next + 1).views)]
      && Flatten(e, w.next).views == [inner.stack[|inner.stack| - 1]]
      && Walked(w, e) == Closed(inner)
  {
    var v := ViewNode(w.next, KindOf(e.name).value, e, []);
    AttachOpened(w.stack, w.top, v, FlattenAll(e.children, w.next + 1).views);
    var inner := WalkedAll(Visited(w, e).(stack := w.stack + [v], next := w.next + 1), e.children);
    assert inner.stack[..|inner.stack| - 1] == w.stack;
    assert PreOrder(e) == [e] + PreOrderAll(e.children);
  }

  /**
   * `parseElement` hands the parent stack back as deep as it found it, with
   * every entry below the innermost untouched; the innermost open view only
   * gains the new views, and the top view changes only when no view is open.
   */
  lemma WalkRestoresParents(w: Walk, e: Node)
    ensures |Walked(w, e).stack| == |w.stack|
    ensures w.stack != [] ==>
      var k := |w.stack| - 1;
      Walked(w, e).stack[..k] == w.stack[..k]
      && Walked(w, e).stack[k] == w.stack[k].(descendents := w.stack[k].descendents + Flatten(e, w.next).views)
      && Walked(w, e).top == w.top
    ensures w.stack == [] && KindOf(e.name).Some? ==> Walked(w, e).top == Some(Flatten(e, w.next).views[0])
  {
    AttachKeepsStack(w.stack, w.top, Flatten(e, w.next).views);
    if KindOf(e.name).Some? {
      RecognisedRoot(e, w.next);
    }
  }

  /** Every element of the walked tree enters and leaves the group once, so a balanced group stays balanced. */
  lemma WalkKeepsBalance(w: Walk, e: Node)
    requires w.group.Some? && Balanced(w.group.value)
    ensures Walked(w, e).group.Some? && Balanced(Walked(w, e).group.value)
    ensures Walked(w, e).created == w.created + PreOrder(e)
  {
  }

  /**
   * What the completion handler leaves behind: the parsing state, whether a
   * banner exists, the `setConstraints` calls, the group counts at each
   * `wait()`, and the delegate calls.
   */
  datatype Session = Session(walk: Walk, hasBanner: bool, calls: seq<RenderCall>, waits: seq<Group>, events: seq<DelegateEvent>)

  /**
   * One call of the completion handler. A failure is forwarded. A document is
   * walked inside a fresh group that is then dropped; if it gives a top view,
   * that view's descendents are rendered and a banner exists from then on;
   * the delegate hears `onReady` exactly when a banner exists.
   */
  function Handled(s: Session, result: HTMLParsing.Outcome, readyType: BannerType): Session {
    match result
    case Failed(failure) => s.(events := s.events + [OnError(Parsing(failure))])
    case Delivered(doc) =>
      var w := Walked(s.walk.(group := Some(Group(0, 0))), doc);
      var hasBanner := s.hasBanner || w.top.Some?;
      Session(w.(group := None), hasBanner,
        if w.top.Some? then s.calls + PlanAll(w.top.value.descendents, w.top.value) else s.calls,
        s.waits + [w.group.value],
        s.events + [if hasBanner then OnReady(readyType) else OnError(Message(NotCreated))])
  }

  /** The completion handler called for each result in turn. */
  function HandledAll(s: Session, results: seq<HTMLParsing.Outcome>, readyType: BannerType): Session
    decreases |results|
  {
    if results == [] then s
    else Handled(HandledAll(s, results[..|results| - 1], readyType), results[|results| - 1], readyType)
  }

  lemma HandledAllSnoc(s: Session, results: seq<HTMLParsing.Outcome>, i: nat, readyType: BannerType)
    requires i < |results|
    ensures HandledAll(s, results[..i + 1], readyType) == Handled(HandledAll(s, results[..i], readyType), results[i], readyType)
  {
    assert results[..i + 1][..i] == results[..i];
  }

  /**
   * Each result adds exactly one delegate call, one the result can lead to,
   * and every group it waits on is balanced; earlier calls and waits stay.
   */
  lemma HandledReports(s: Session, result: HTMLParsing.Outcome, readyType: BannerType)
    ensures var t := Handled(s, result, readyType);
      |t.events| == |s.events| + 1 && t.events[..|s.events|] == s.events
      && t.events[|s.events|] in Reported(result, readyType)
      && |s.waits| <= |t.waits| && t.waits[..|s.waits|] == s.waits && AllBalanced(t.waits[|s.waits|..])
  {
    var t := Handled(s, result, readyType);
    if result.Delivered? {
      WalkKeepsBalance(s.walk.(group := Some(Group(0, 0))), result.tree);
      assert t.waits[|s.waits|..] == [t.waits[|s.waits|]];
    } else {
      assert t.waits[|s.waits|..] == [];
    }
  }

  /** Over all results: one admissible delegate call per result, and balanced groups. */
  lemma {:induction false} HandledAllReports(s: Session, results: seq<HTMLParsing.Outcome>, readyType: BannerType)
    ensures var t := HandledAll(s, results, readyType);
      |s.events| <= |t.events| && t.events[..|s.events|] == s.events
      && ReportsFor(t.events[|s.events|..], results, readyType)
      && |s.waits| <= |t.waits| && t.waits[..|s.waits|] == s.waits && AllBalanced(t.waits[|s.waits|..])
    decreases |results|
  {
    if results != [] {
      var n := |results| - 1;
      var u := HandledAll(s, results[..n], readyType);
      var t := HandledAll(s, results, readyType);
      HandledAllReports(s, results[..n], readyType);
      HandledReports(u, results[n], readyType);
      assert results[..n + 1] == results;
      ExtendReports(s.events, u.events, t.events, results, n, readyType);
      ExtendWaits(s.waits, u.waits, t.waits);
    }
  }

  lemma ExtendReports(e0: seq<DelegateEvent>, e1: seq<DelegateEvent>, e2: seq<DelegateEvent>,
                      results: seq<HTMLParsing.Outcome>, n: nat, readyType: BannerType)
    requires n < |results|
    requires |e0| <= |e1| && e1[..|e0|] == e0 && ReportsFor(e1[|e0|..], results[..n], readyType)
    requires |e2| == |e1| + 1 && e2[..|e1|] == e1 && e2[|e1|] in Reported(results[n], readyType)
    ensures |e0| <= |e2| && e2[..|e0|] == e0 && ReportsFor(e2[|e0|..], results[..n + 1], readyType)
  {
    assert e2[|e0|..] == e1[|e0|..] + [e2[|e1|]];
    ReportsSnoc(e1[|e0|..], results, n, readyType, e2[|e1|]);
  }

  lemma ExtendWaits(g0: seq<Group>, g1: seq<Group>, g2: seq<Group>)
    requires |g0| <= |g1| && g1[..|g0|] == g0 && AllBalanced(g1[|g0|..])
    requires |g1| <= |g2| && g2[..|g1|] == g1 && AllBalanced(g2[|g1|..])
    ensures |g0| <= |g2| && g2[..|g0|] == g0 && AllBalanced(g2[|g0|..])
  {
    assert g2[|g0|..] == g1[|g0|..] + g2[|g1|..];
  }

  /**
   * A document handed to a controller with no banner, no open view and no
   * top view makes `onReady` fire exactly when the document yields a view,
   * which is always the case when its root element has a known tag.
   */
  lemma FirstDocumentReady(s: Session, doc: Node, readyType: BannerType)
    requires !s.hasBanner && s.walk.stack == [] && s.walk.top.None?
    ensures var t := Handled(s, HTMLParsing.Delivered(doc), readyType);
      t.events[|s.events|] == OnReady(readyType) <==> Flatten(doc, s.walk.next).views != []
    ensures KindOf(doc.name).Some? ==>
      Handled(s, HTMLParsing.Delivered(doc), readyType).events[|s.events|] == OnReady(readyType)
  {
    if KindOf(doc.name).Some? {
      RecognisedRoot(doc, s.walk.next);
    }
  }

  /** The completion-handler calls `HTMLParser().parse(html:)` makes. */
  function ParserResults(html: string, foundation: HTMLParsing.Foundation): seq<HTMLParsing.Outcome> {
    var data := foundation.utf8(SubstituteTagsAsWritten(html));
    if data.None? then [HTMLParsing.Failed(HTMLParsing.Html(NonValidHTML))]
    else HTMLParsing.Run(HTMLParsing.Initial, foundation.xmlEvents(data.value)).outcomes
  }

  class BannerViewController {
    var view: Option<BannerViews.BannerView>
    var bannerType: BannerType
    var parsingParents: seq<ViewNode>
    var parsingGroup: Option<Group>
    var topView: Option<ViewNode>
    /** The next view identifier; stands for `UUID().uuidString`. */
    var nextId: nat
    /** The elements passed to `createView`, in order. */
    var created: seq<Node>
    /** The group's counts each time `wait()` is reached. */
    var waits: seq<Group>
    /** The `setConstraints` calls made by `renderView`. */
    var renderCalls: seq<RenderCall>
    var events: seq<DelegateEvent>

    constructor ()
      ensures view.None? && bannerType == Center && parsingParents == [] && parsingGroup.None? && topView.None?
      ensures nextId == 0 && created == [] && waits == [] && renderCalls == [] && events == []
    {
      view := None;
      bannerType := Center;
      parsingParents := [];
      parsingGroup := None;
      topView := None;
      nextId := 0;
      created := [];
      waits := [];
      renderCalls := [];
      events := [];
    }

    /**
     * `create(from:bannerType:)`: refused while a group is open; otherwise
     * every result of the parser is handled in turn, each leading to exactly
     * one delegate call, and every group is balanced when it is waited on.
     */
    method Create(html: string, bannerType: BannerType, foundation: HTMLParsing.Foundation, isLight: RenderingElement.Color -> bool)
      requires HTMLParsing.WellNested(foundation)
      modifies this
      ensures this.bannerType == bannerType
      ensures old(parsingGroup).Some? ==>
        events == old(events) + [OnError(Message(AlreadyCreating))]
        && parsingGroup == old(parsingGroup) && parsingParents == old(parsingParents) && topView == old(topView)
        && view == old(view) && renderCalls == old(renderCalls) && waits == old(waits)
      ensures old(parsingGroup).None? ==>
        parsingGroup.None? && CurrentSession() == HandledAll(old(CurrentSession()), ParserResults(html, foundation), bannerType)
    {
      this.bannerType := bannerType;
      if parsingGroup.Some? {
        events := events + [OnError(Message(AlreadyCreating))];
        return;
      }
      ParseAndHandle(html, foundation, bannerType, isLight);
    }

    /** `HTMLParser().parse(html:)` with the completion handler of `create`. */
    method ParseAndHandle(html: string, foundation: HTMLParsing.Foundation, readyType: BannerType, isLight: RenderingElement.Color -> bool)
      requires HTMLParsing.WellNested(foundation) && parsingGroup.None?
      modifies this
      ensures bannerType == old(bannerType) && parsingGroup.None?
      ensures CurrentSession() == HandledAll(old(CurrentSession()), ParserResults(html, foundation), readyType)
    {
      var parser := new HTMLParsing.HTMLParser();
      parser.Parse(html, foundation);
      var results := parser.results;
      assert results == ParserResults(html, foundation);
      HandleAll(results, readyType, isLight);
    }

    /** The completion handler called for each result in turn. */
    method HandleAll(results: seq<HTMLParsing.Outcome>, readyType: BannerType, isLight: RenderingElement.Color -> bool)
      requires parsingGroup.None?
      modifies this
      ensures bannerType == old(bannerType) && parsingGroup.None?
      ensures CurrentSession() == HandledAll(old(CurrentSession()), results, readyType)
    {
      var i := 0;
      while i < |results|
        invariant 0 <= i <= |results| && bannerType == old(bannerType) && parsingGroup.None?
        invariant CurrentSession() == HandledAll(old(CurrentSession()), results[..i], readyType)
      {
        HandledAllSnoc(old(CurrentSession()), results, i, readyType);
        HandleResult(results[i], readyType, isLight);
        i := i + 1;
      }
      assert results[..i] == results;
    }

    /**
     * The completion handler of `create`: a failure goes to the delegate; a
     * document is walked inside a fresh group, the group is waited on and
     * dropped, the tree is rendered, and the delegate hears `onReady` when a
     * banner exists.
     */
    method HandleResult(result: HTMLParsing.Outcome, readyType: BannerType, isLight: RenderingElement.Color -> bool)
      modifies this
      ensures bannerType == old(bannerType)
      ensures |events| == |old(events)| + 1 && events[..|old(events)|] == old(events)
      ensures events[|old(events)|] in Reported(result, readyType)
      ensures |old(waits)| <= |waits| && waits[..|old(waits)|] == old(waits) && AllBalanced(waits[|old(waits)|..])
      ensures CurrentSession() == Handled(old(CurrentSession()), result, readyType)
      ensures result.Failed? ==>
        events[|old(events)|] == OnError(Parsing(result.failure))
        && State() == old(State()) && view == old(view) && renderCalls == old(renderCalls) && waits == old(waits)
      ensures result.Delivered? ==>
        var w := Walked(old(State()).(group := Some(Group(0, 0))), result.tree);
        State() == w.(group := None) && parsingGroup.None?
        && waits == old(waits) + [Group(|PreOrder(result.tree)|, |PreOrder(result.tree)|)]
        && events[|old(events)|] == (if view.Some? then OnReady(readyType) else OnError(Message(NotCreated)))
        && (topView.None? ==> view == old(view) && renderCalls == old(renderCalls))
        && (topView.Some? ==>
              view.Some? && view.value.topView == topView.value
              && renderCalls == old(renderCalls) + PlanAll(topView.value.descendents, topView.value))
    {
      match result
      case Failed(failure) =>
        events := events + [OnError(Parsing(failure))];
      case Delivered(doc) =>
        Deliver(doc, readyType, isLight);
    }

    /** The success branch of the completion handler. */
    method Deliver(doc: Node, readyType: BannerType, isLight: RenderingElement.Color -> bool)
      modifies this
      ensures bannerType == old(bannerType)
      ensures var w := Walked(old(State()).(group := Some(Group(0, 0))), doc);
        State() == w.(group := None) && waits == old(waits) + [w.group.value]
      ensures events == old(events) + [if view.Some? then OnReady(readyType) else OnError(Message(NotCreated))]
      ensures topView.None? ==> view == old(view) && renderCalls == old(renderCalls)
      ensures topView.Some? ==>
        view.Some? && view.value.topView == topView.value
        && renderCalls == old(renderCalls) + PlanAll(topView.value.descendents, topView.value)
    {
      Collect(doc);
      Render(isLight);
      Report(readyType);
    }

    /** `parsingGroup = DispatchGroup()`, `parseElement(doc)`, `wait()`, and `parsingGroup = nil`. */
    method Collect(doc: Node)
      modifies this`parsingParents, this`parsingGroup, this`topView, this`nextId, this`created, this`waits
      ensures var w := Walked(old(State()).(group := Some(Group(0, 0))), doc);
        State() == w.(group := None) && waits == old(waits) + [w.group.value]
    {
      parsingGroup := Some(Group(0, 0));
      var top := ParseElement(doc);
      waits := waits + [parsingGroup.value];
      parsingGroup := None;
    }

    /** `onReady` when a banner exists, otherwise the "not created" error. */
    method Report(readyType: BannerType)
      modifies this`events
      ensures events == old(events) + [if view.Some? then OnReady(readyType) else OnError(Message(NotCreated))]
    {
      if view.Some? {
        events := events + [OnReady(readyType)];
      } else {
        events := events + [OnError(Message(NotCreated))];
      }
    }

    /**
     * `clear()`: the banner leaves its superview and every piece of parsing
     * state is reset; the banner type goes back to `center`.
     */
    method Clear()
      modifies this, if view.Some? then {view.value} else {}
      ensures view.None? && parsingGroup.None? && topView.None? && parsingParents == [] && bannerType == Center
      ensures old(view).Some? ==> !old(view).value.hasSuperview && old(view).value.events == old(view.value.events)
      ensures events == old(events) && renderCalls == old(renderCalls) && waits == old(waits)
      ensures nextId == old(nextId) && created == old(created)
    {
      if view.Some? {
        view.value.MoveTo(false);
      }
      view := None;
      parsingGroup := None;
      topView := None;
      parsingParents := [];
      bannerType := Center;
    }

    function State(): Walk
      reads this
    {
      Walk(parsingParents, topView, nextId, parsingGroup, created)
    }

    function CurrentSession(): Session
      reads this
    {
      Session(State(), view.Some?, renderCalls, waits, events)
    }

    /**
     * `parseElement(_:)`: enter the group, create the element's view, walk
     * the children, and finish the view; a view finished with no open
     * parent becomes the top view.
     */
    method ParseElement(e: Node) returns (made: Option<ViewNode>)
      modifies this`parsingParents, this`parsingGroup, this`topView, this`nextId, this`created
      ensures State() == Walked(old(State()), e)
      ensures made.Some? <==> KindOf(e.name).Some?
      ensures made.Some? ==> [made.value] == Flatten(e, old(nextId)).views
      decreases e
    {
      ghost var w := State();
      parsingGroup := Enter(parsingGroup);
      var kind := CreateView(e);
      assert State() == Visited(w, e);
      if kind.Some? {
        var id := nextId;
        nextId := nextId + 1;
        parsingParents := parsingParents + [ViewNode(id, kind.value, e, [])];
        ghost var begun := State();
        assert begun == Visited(w, e).(stack := w.stack + [ViewNode(w.next, KindOf(e.name).value, e, [])], next := w.next + 1);
        WalkChildren(e);
        ghost var inner := State();
        assert inner == WalkedAll(begun, e.children);
        WalkedView(w, e);
        made := Finish();
        assert State() == Closed(inner);
      } else {
        WalkChildren(e);
        WalkedPlain(w, e);
        made := None;
      }
    }

    /** The loop of `parseElement` over the element's children. */
    method WalkChildren(e: Node)
      modifies this`parsingParents, this`parsingGroup, this`topView, this`nextId, this`created
      ensures State() == WalkedAll(old(State()), e.children)
      decreases e, 0
    {
      WalkedNothing(State());
      var i := 0;
      while i < |e.children|
        invariant 0 <= i <= |e.children|
        invariant State() == WalkedAll(old(State()), e.children[..i])
      {
        var sub := ParseElement(e.children[i]);
        WalkedAllSnoc(old(State()), e.children, i);
        i := i + 1;
      }
      assert e.children[..i] == e.children;
    }

    /** The end of `parseElement` for a view: it becomes the top view when it is the only open view, and is popped. */
    method Finish() returns (made: Option<ViewNode>)
      requires parsingParents != []
      modifies this`parsingParents, this`topView
      ensures made == Some(old(parsingParents[|parsingParents| - 1]))
      ensures State() == Closed(old(State()))
    {
      var finished := parsingParents[|parsingParents| - 1];
      parsingParents := parsingParents[..|parsingParents| - 1];
      if parsingParents == [] {
        topView := Some(finished);
      } else {
        var parent := parsingParents[|parsingParents| - 1];
        parsingParents := parsingParents[..|parsingParents| - 1] + [parent.(descendents := parent.descendents + [finished])];
      }
      made := Some(finished);
    }

    /**
     * `createView(_:completion:)`: the view kind for the tag; the completion,
     * which leaves the group, runs once either way (each view's own
     * `prepare` calls it exactly once).
     */
    method CreateView(e: Node) returns (kind: Option<Kind>)
      modifies this`parsingGroup, this`created
      ensures kind == KindOf(e.name)
      ensures created == old(created) + [e]
      ensures parsingGroup == Leave(old(parsingGroup))
    {
      created := created + [e];
      kind := KindOf(e.name);
      parsingGroup := Leave(parsingGroup);
    }

    /** `render()`: a new banner around the top view, then every view below it laid out in order. */
    method Render(isLight: RenderingElement.Color -> bool)
      modifies this`view, this`renderCalls
      ensures topView.None? ==> view == old(view) && renderCalls == old(renderCalls)
      ensures topView.Some? ==>
        view.Some? && fresh(view.value) && view.value.topView == topView.value && view.value.bannerType == bannerType
        && !view.value.hasSuperview && view.value.events == []
        && renderCalls == old(renderCalls) + PlanAll(topView.value.descendents, topView.value)
    {
      if topView.None? {
        return;
      }
      var top := topView.value;
      var superview := new BannerViews.BannerView(top, bannerType, isLight);
      view := Some(superview);
      RenderChildren(top);
    }

    /** `renderView(_:parent:)`: lay out the view against its previous sibling, then its own descendents. */
    method RenderView(v: ViewNode, parent: ViewNode)
      modifies this`renderCalls
      ensures renderCalls == old(renderCalls) + Plan(v, parent)
      decreases v, 1
    {
      var before := Before(parent.descendents, v);
      var previous := if before.Some? then Some(before.value.id) else None;
      renderCalls := renderCalls + [RenderCall(v.id, parent.id, previous, IsLast(parent.descendents, v))];
      RenderChildren(v);
    }

    /** `descendents.forEach { renderView($0, parent:) }`. */
    method RenderChildren(parent: ViewNode)
      modifies this`renderCalls
      ensures renderCalls == old(renderCalls) + PlanAll(parent.descendents, parent)
      decreases parent, 0
    {
      var i := 0;
      while i < |parent.descendents|
        invariant 0 <= i <= |parent.descendents|
        invariant renderCalls == old(renderCalls) + PlanAll(parent.descendents[..i], parent)
      {
        RenderView(parent.descendents[i], parent);
        PlanAllSnoc(parent.descendents, i, parent);
        i := i + 1;
      }
      assert parent.descendents[..i] == parent.descendents;
    }

    /** The banner's `onClose`, passed on to the delegate. */
    method ForwardClose()
      modifies this`events
      ensures events == old(events) + [OnClose]
    {
      events := events + [OnClose];
    }

    /** The banner's `onAdded`, passed on to the delegate. */
    method ForwardAdded()
      modifies this`events
      ensures events == old(events) + [OnAdded]
    {
      events := events + [OnAdded];
    }

    /** A button's action closure: the tapped `href` goes to the delegate's `onAction`. */
    method ForwardAction(action: string)
      modifies this`events
      ensures events == old(events) + [OnAction(action)]
    {
      events := events + [OnAction(action)];
    }
  }

  /**
   * A document whose root tag is known, parsed with no view open, yields
   * that root's view as the top view, numbered so that rendering finds every
   * view's real neighbours.
   */
  lemma DocumentTopView(doc: Node, next: nat, top: Option<ViewNode>)
    requires KindOf(doc.name).Some?
    ensures var v := Flatten(doc, next).views[0];
      Attach([], top, Flatten(doc, next).views) == Placed([], Some(v))
      && v.element == doc && v.id == next && WellNumbered(v)
  {
    RecognisedRoot(doc, next);
    FlattenNumbering(doc, next);
  }
}
