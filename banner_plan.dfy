/**
 * What the banner controller computes, as functions: which tags become
 * views, the view tree a walk over the element tree builds, and the order
 * in which `render` lays the views out.
 */
module BannerPlan {
  import opened Wrappers
  import opened ElementTree
  import opened ViewTree

  // ---------------------------------------------------------------------
  // Tag mapping
  // ---------------------------------------------------------------------

  /** `createView`'s switch: the view kind for each tag it knows. */
  function KindOf(name: string): Option<Kind> {
    if name == "re-body" || name == "re-main" || name == "re-block" then Some(BlockKind)
    else if name == "re-heading" || name == "re-text" then Some(LabelKind)
    else if name == "re-image" then Some(ImageKind)
    else if name == "re-button" then Some(ButtonKind)
    else None
  }

  /** Eight tags are known; every other one, `re-spacer` included, creates no view. */
  lemma TagMapping(name: string)
    ensures KindOf(name) == Some(BlockKind) <==> name in {"re-body", "re-main", "re-block"}
    ensures KindOf(name) == Some(LabelKind) <==> name in {"re-heading", "re-text"}
    ensures KindOf(name) == Some(ImageKind) <==> name == "re-image"
    ensures KindOf(name) == Some(ButtonKind) <==> name == "re-button"
    ensures KindOf(name).None? <==> name !in {"re-body", "re-main", "re-block", "re-heading", "re-text", "re-image", "re-button"}
  {
  }

  lemma SpacerIsNotMapped()
    ensures KindOf("re-spacer").None?
  {
  }

  // ---------------------------------------------------------------------
  // The view tree
  // ---------------------------------------------------------------------

  /** The views built for some elements, and the next free identifier. */
  datatype Built = Built(views: seq<ViewNode>, next: nat)

  /**
   * The views `parseElement(e)` contributes to its nearest recognised
   * ancestor: one view holding its children's views when `e`'s tag is
   * known, otherwise its children's views themselves. Identifiers are given
   * out in pre-order from `next`.
   */
  function Flatten(e: Node, next: nat): Built
    decreases e, 1
  {
    match KindOf(e.name)
    case Some(kind) =>
      var inner := FlattenAll(e.children, next + 1);
      Built([ViewNode(next, kind, e, inner.views)], inner.next)
    case None => FlattenAll(e.children, next)
  }

  function FlattenAll(es: seq<Node>, next: nat): Built
    decreases es, 0
  {
    if es == [] then Built([], next)
    else
      var front := FlattenAll(es[..|es| - 1], next);
      var back := Flatten(es[|es| - 1], front.next);
      Built(front.views + back.views, back.next)
  }

  lemma FlattenAllSnoc(es: seq<Node>, i: nat, next: nat)
    requires i < |es|
    ensures FlattenAll(es[..i + 1], next) ==
      Built(FlattenAll(es[..i], next).views + Flatten(es[i], FlattenAll(es[..i], next).next).views,
            Flatten(es[i], FlattenAll(es[..i], next).next).next)
  {
    assert es[..i + 1][..i] == es[..i];
  }

  lemma PreOrderAllSnoc(es: seq<Node>, i: nat)
    requires i < |es|
    ensures PreOrderAll(es[..i + 1]) == PreOrderAll(es[..i]) + PreOrder(es[i])
  {
    assert es[..i + 1][..i] == es[..i];
  }

  /** A recognised element is the single view it contributes, with the first free identifier. */
  lemma RecognisedRoot(e: Node, next: nat)
    requires KindOf(e.name).Some?
    ensures |Flatten(e, next).views| == 1
    ensures Flatten(e, next).views[0].id == next && Flatten(e, next).views[0].element == e
    ensures Flatten(e, next).views[0].kind == KindOf(e.name).value
  {
  }

  // ---------------------------------------------------------------------
  // The parent stack
  // ---------------------------------------------------------------------

  /** The parent stack and the top view. */
  datatype Placed = Placed(stack: seq<ViewNode>, top: Option<ViewNode>)

  /**
   * Where finished views go: appended to the descendents of the innermost
   * open view, or, with no open view, each becomes the top view in turn.
   */
  function Attach(stack: seq<ViewNode>, top: Option<ViewNode>, views: seq<ViewNode>): Placed {
    if stack == [] then Placed([], if views == [] then top else Some(views[|views| - 1]))
    else
      var parent := stack[|stack| - 1];
      Placed(stack[..|stack| - 1] + [parent.(descendents := parent.descendents + views)], top)
  }

  /** Attaching in two steps is attaching once. */
  lemma AttachAppend(stack: seq<ViewNode>, top: Option<ViewNode>, a: seq<ViewNode>, b: seq<ViewNode>)
    ensures Attach(Attach(stack, top, a).stack, Attach(stack, top, a).top, b) == Attach(stack, top, a + b)
  {
    if stack == [] {
      if b == [] {
        assert a + b == a;
      } else {
        assert (a + b)[|a + b| - 1] == b[|b| - 1];
      }
    } else {
      var parent := stack[|stack| - 1];
      var s1 := Attach(stack, top, a).stack;
      assert s1[..|s1| - 1] == stack[..|stack| - 1];
      assert parent.descendents + a + b == parent.descendents + (a + b);
    }
  }

  /** Attaching nothing changes nothing. */
  lemma AttachNothing(stack: seq<ViewNode>, top: Option<ViewNode>)
    ensures Attach(stack, top, []) == Placed(stack, top)
  {
    if stack != [] {
      var parent := stack[|stack| - 1];
      assert parent.(descendents := parent.descendents + []) == parent;
      assert stack[..|stack| - 1] + [parent] == stack;
    }
  }

  /**
   * Views attached above a freshly opened view become its descendents;
   * finishing it then attaches the whole view to what was open before.
   */
  lemma AttachOpened(stack: seq<ViewNode>, top: Option<ViewNode>, v: ViewNode, views: seq<ViewNode>)
    requires v.descendents == []
    ensures Attach(stack + [v], top, views) == Placed(stack + [v.(descendents := views)], top)
  {
    var s := stack + [v];
    assert s[..|s| - 1] == stack;
    assert v.descendents + views == views;
  }

  /**
   * The stack keeps its depth and every entry but the innermost; the
   * innermost only gains descendents, and the top view changes only when
   * the stack is empty.
   */
  lemma AttachKeepsStack(stack: seq<ViewNode>, top: Option<ViewNode>, views: seq<ViewNode>)
    ensures |Attach(stack, top, views).stack| == |stack|
    ensures stack != [] ==>
      Attach(stack, top, views).stack[..|stack| - 1] == stack[..|stack| - 1]
      && Attach(stack, top, views).stack[|stack| - 1] == stack[|stack| - 1].(descendents := stack[|stack| - 1].descendents + views)
      && Attach(stack, top, views).top == top
    ensures stack == [] && views != [] ==> Attach(stack, top, views).top == Some(views[|views| - 1])
    ensures stack == [] && views == [] ==> Attach(stack, top, views).top == top
  {
  }

  // ---------------------------------------------------------------------
  // Identifiers
  // ---------------------------------------------------------------------

  /** Every view's descendents have strictly increasing, hence distinct, identifiers. */
  predicate WellNumbered(v: ViewNode)
    decreases v, 1
  {
    Increasing(v.descendents) && AllWellNumbered(v.descendents)
  }

  predicate AllWellNumbered(vs: seq<ViewNode>)
    decreases vs, 0
  {
    forall i :: 0 <= i < |vs| ==> WellNumbered(vs[i])
  }

  predicate IdsWithin(vs: seq<ViewNode>, lo: nat, hi: nat) {
    forall i :: 0 <= i < |vs| ==> lo <= vs[i].id < hi
  }

  /**
   * The walk numbers views so that siblings are in increasing order: the
   * identifiers of the views built from some elements lie between the first
   * free identifier before and after.
   */
  lemma {:induction false} FlattenNumbering(e: Node, next: nat)
    ensures var b := Flatten(e, next);
      next <= b.next && IdsWithin(b.views, next, b.next) && Increasing(b.views) && AllWellNumbered(b.views)
    decreases e, 1
  {
    match KindOf(e.name)
    case Some(kind) =>
      FlattenAllNumbering(e.children, next + 1);
    case None =>
      FlattenAllNumbering(e.children, next);
  }

  lemma {:induction false} FlattenAllNumbering(es: seq<Node>, next: nat)
    ensures var b := FlattenAll(es, next);
      next <= b.next && IdsWithin(b.views, next, b.next) && Increasing(b.views) && AllWellNumbered(b.views)
    decreases es, 0
  {
    if es != [] {
      var front := FlattenAll(es[..|es| - 1], next);
      FlattenAllNumbering(es[..|es| - 1], next);
      var back := Flatten(es[|es| - 1], front.next);
      FlattenNumbering(es[|es| - 1], front.next);
      JoinNumbered(front.views, back.views, next, front.next, back.next);
    }
  }

  lemma JoinNumbered(a: seq<ViewNode>, b: seq<ViewNode>, lo: nat, mid: nat, hi: nat)
    requires IdsWithin(a, lo, mid) && IdsWithin(b, mid, hi) && lo <= mid <= hi
    requires Increasing(a) && Increasing(b) && AllWellNumbered(a) && AllWellNumbered(b)
    ensures IdsWithin(a + b, lo, hi) && Increasing(a + b) && AllWellNumbered(a + b)
  {
    var ab := a + b;
    forall i, j | 0 <= i < j < |ab|
      ensures ab[i].id < ab[j].id
    {
      if j < |a| {
        assert ab[i] == a[i] && ab[j] == a[j];
      } else if i < |a| {
        assert ab[i] == a[i] && ab[j] == b[j - |a|];
      } else {
        assert ab[i] == b[i - |a|] && ab[j] == b[j - |a|];
      }
    }
    forall i | 0 <= i < |ab|
      ensures WellNumbered(ab[i]) && lo <= ab[i].id < hi
    {
      if i < |a| {
        assert ab[i] == a[i];
      } else {
        assert ab[i] == b[i - |a|];
      }
    }
  }

  // ---------------------------------------------------------------------
  // Render order
  // ---------------------------------------------------------------------

  /** One `setConstraints` call: the view, its parent, the previous sibling found by `before`, and the `last` flag. */
  datatype RenderCall = RenderCall(view: nat, parent: nat, previous: Option<nat>, last: bool)

  function IdOf(v: Option<ViewNode>): Option<nat> {
    if v.Some? then Some(v.value.id) else None
  }

  /** The call `renderView(v, parent:)` makes for `v` itself. */
  function CallFor(v: ViewNode, parent: ViewNode): RenderCall {
    RenderCall(v.id, parent.id, IdOf(Before(parent.descendents, v)), IsLast(parent.descendents, v))
  }

  /** `renderView(v, parent:)`: the view first, then each descendent's subtree in order. */
  function Plan(v: ViewNode, parent: ViewNode): seq<RenderCall>
    decreases v, 1
  {
    [CallFor(v, parent)] + PlanAll(v.descendents, v)
  }

  function PlanAll(vs: seq<ViewNode>, parent: ViewNode): seq<RenderCall>
    decreases vs, 0
  {
    if vs == [] then [] else PlanAll(vs[..|vs| - 1], parent) + Plan(vs[|vs| - 1], parent)
  }

  lemma PlanAllSnoc(vs: seq<ViewNode>, i: nat, parent: ViewNode)
    requires i < |vs|
    ensures PlanAll(vs[..i + 1], parent) == PlanAll(vs[..i], parent) + Plan(vs[i], parent)
  {
    assert vs[..i + 1][..i] == vs[..i];
  }

  /**
   * In a well-numbered tree each view is laid out against its real
   * predecessor, and only the final child of a parent is flagged `last`.
   */
  lemma CallsUseRealNeighbours(parent: ViewNode, i: nat)
    requires WellNumbered(parent) && i < |parent.descendents|
    ensures var ds := parent.descendents;
      CallFor(ds[i], parent) == RenderCall(ds[i].id, parent.id, if i == 0 then None else Some(ds[i - 1].id), i == |ds| - 1)
  {
    PositionsByIdentity(parent.descendents, i);
  }

  /** The identifiers of a tree in pre-order. */
  function PreIds(v: ViewNode): seq<nat>
    decreases v, 1
  {
    [v.id] + PreIdsAll(v.descendents)
  }

  function PreIdsAll(vs: seq<ViewNode>): seq<nat>
    decreases vs, 0
  {
    if vs == [] then [] else PreIdsAll(vs[..|vs| - 1]) + PreIds(vs[|vs| - 1])
  }

  /** The views of a sequence of calls, in order. */
  function Views(cs: seq<RenderCall>): (r: seq<nat>)
    ensures |r| == |cs|
  {
    if cs == [] then [] else Views(cs[..|cs| - 1]) + [cs[|cs| - 1].view]
  }

  lemma {:induction false} ViewsAppend(a: seq<RenderCall>, b: seq<RenderCall>)
    ensures Views(a + b) == Views(a) + Views(b)
    decreases |b|
  {
    if b == [] {
      assert a + b == a;
    } else {
      var b' := b[..|b| - 1];
      assert (a + b)[..|a + b| - 1] == a + b';
      ViewsAppend(a, b');
    }
  }

  /** Rendering visits every view below the top view exactly once, in pre-order: parent first, then children in order. */
  lemma {:induction false} PlanIsPreOrder(v: ViewNode, parent: ViewNode)
    ensures Views(Plan(v, parent)) == PreIds(v)
    decreases v, 1
  {
    PlanAllIsPreOrder(v.descendents, v);
    ViewsAppend([CallFor(v, parent)], PlanAll(v.descendents, v));
    assert Views([CallFor(v, parent)]) == [v.id];
  }

  lemma {:induction false} PlanAllIsPreOrder(vs: seq<ViewNode>, parent: ViewNode)
    ensures Views(PlanAll(vs, parent)) == PreIdsAll(vs)
    decreases vs, 0
  {
    if vs != [] {
      PlanAllIsPreOrder(vs[..|vs| - 1], parent);
      PlanIsPreOrder(vs[|vs| - 1], parent);
      ViewsAppend(PlanAll(vs[..|vs| - 1], parent), Plan(vs[|vs| - 1], parent));
    }
  }
}
