/**
 * The layout relationships the views install with Auto Layout, as values.
 * Each view's `render`/`setConstraints` activates one constraint after the
 * other; the functions here give that sequence, and the lemmas say which
 * edges it pins and how.
 */
module Layout {
  import opened Wrappers
  import opened RenderingElement

  /** One activated constraint of a view, against its parent unless said otherwise. */
  datatype Anchor =
    | EqualWidth(c: real)       // widthAnchor == c
    | WidthAtMost               // widthAnchor <= parent.widthAnchor
    | EqualHeight(c: real)      // heightAnchor == c
    | CenterX                   // centerXAnchor == parent.centerXAnchor
    | Leading(c: real)          // leadingAnchor == parent.leadingAnchor + c
    | Trailing(c: real)         // trailingAnchor == parent.trailingAnchor + c
    | TopToSibling(c: real)     // topAnchor == previousSibling.bottomAnchor + c
    | TopToParent(c: real)      // topAnchor == parent.topAnchor + c
    | BottomToParent(c: real)   // bottomAnchor == parent.bottomAnchor + c

  /** What `render` is given: the parent's and the previous sibling's attributes and whether the view is the last child. */
  datatype Placement = Placement(parent: Attributes, previousSibling: Option<Attributes>, last: bool)

  /**
   * The resolved values `render` works with: its own width, height and
   * margin, the parent's padding and alignment, the previous sibling's
   * margin and the `last` flag. Absent insets are already `.zero`.
   */
  datatype Frame = Frame(
    width: Option<nat>, height: Option<nat>, margin: Insets,
    parentPadding: Insets, parentAlign: Option<string>,
    siblingMargin: Option<Insets>, last: bool)

  /** `margin ?? .zero`, `padding ?? .zero` and the other lookups at the head of `render`. */
  function FrameOf(attrs: Attributes, p: Placement): Frame {
    Frame(
      Width(attrs), Height(attrs), Margin(attrs).GetOr(Zero),
      Padding(p.parent).GetOr(Zero), Align(p.parent),
      match p.previousSibling case Some(s) => Some(Margin(s).GetOr(Zero)) case None => None,
      p.last)
  }

  function LeadingOffset(f: Frame): real {
    (f.parentPadding.left + f.margin.left) as real
  }

  function TrailingOffset(f: Frame): real {
    -((f.parentPadding.right + f.margin.right) as real)
  }

  /** The `switch parent.element.align` of a view with a fixed width. */
  function AlignAnchor(f: Frame): Anchor {
    if f.parentAlign == Some("center") then CenterX
    else if f.parentAlign == Some("right") then Trailing(TrailingOffset(f))
    else Leading(LeadingOffset(f))
  }

  /** Horizontal placement of a block, label or image: a fixed width and an alignment, or both sides pinned. */
  function Horizontal(f: Frame): seq<Anchor> {
    match f.width
    case Some(w) => [EqualWidth(w as real), AlignAnchor(f)]
    case None => [Leading(LeadingOffset(f)), Trailing(TrailingOffset(f))]
  }

  function FixedHeight(f: Frame): seq<Anchor> {
    match f.height
    case Some(h) => [EqualHeight(h as real)]
    case None => []
  }

  /** The top edge: below the previous sibling and its bottom margin, or at the parent's top padding. */
  function TopAnchor(f: Frame): Anchor {
    match f.siblingMargin
    case Some(sm) => TopToSibling((sm.bottom + f.margin.top) as real)
    case None => TopToParent((f.parentPadding.top + f.margin.top) as real)
  }

  function BottomOffset(f: Frame): real {
    -((f.margin.bottom + f.parentPadding.bottom) as real)
  }

  function BottomAnchor(f: Frame): seq<Anchor> {
    if f.last then [BottomToParent(BottomOffset(f))] else []
  }

  /** The vertical part shared by every view: fixed height, top edge, bottom edge of the last child. */
  function Vertical(f: Frame): seq<Anchor> {
    FixedHeight(f) + [TopAnchor(f)] + BottomAnchor(f)
  }

  /** `AcceleraBlock.render` and `AcceleraLabel.render`. */
  function BlockAnchors(f: Frame): seq<Anchor> {
    Horizontal(f) + Vertical(f)
  }

  function ButtonWidth(f: Frame): Anchor {
    match f.width
    case Some(w) => EqualWidth(w as real)
    case None => WidthAtMost
  }

  /** `AcceleraButton.setConstraints`: the width is fixed or at most the parent's, and the alignment is always applied. */
  function ButtonAnchors(f: Frame): seq<Anchor> {
    [ButtonWidth(f), AlignAnchor(f)] + Vertical(f)
  }

  // ---------------------------------------------------------------------
  // Selecting the anchors that pin one edge or dimension
  // ---------------------------------------------------------------------

  datatype Edge = TopEdge | BottomEdge | HeightDimension | WidthDimension | HorizontalEdge

  function EdgeOf(a: Anchor): Edge {
    match a
    case EqualWidth(_) => WidthDimension
    case WidthAtMost => WidthDimension
    case EqualHeight(_) => HeightDimension
    case CenterX => HorizontalEdge
    case Leading(_) => HorizontalEdge
    case Trailing(_) => HorizontalEdge
    case TopToSibling(_) => TopEdge
    case TopToParent(_) => TopEdge
    case BottomToParent(_) => BottomEdge
  }

  /** The anchors of `r` that pin edge `e`, in order. */
  function Select(r: seq<Anchor>, e: Edge): seq<Anchor> {
    if r == [] then [] else (if EdgeOf(r[0]) == e then [r[0]] else []) + Select(r[1..], e)
  }

  lemma {:induction false} SelectAppend(a: seq<Anchor>, b: seq<Anchor>, e: Edge)
    ensures Select(a + b, e) == Select(a, e) + Select(b, e)
    decreases |a|
  {
    if a == [] {
      assert a + b == b;
    } else {
      SelectAppend(a[1..], b, e);
      assert (a + b)[1..] == a[1..] + b;
    }
  }

  lemma SelectThree(a: seq<Anchor>, b: seq<Anchor>, c: seq<Anchor>, e: Edge)
    ensures Select(a + b + c, e) == Select(a, e) + Select(b, e) + Select(c, e)
  {
    SelectAppend(a + b, c, e);
    SelectAppend(a, b, e);
  }

  lemma SelectOne(a: Anchor, e: Edge)
    ensures Select([a], e) == if EdgeOf(a) == e then [a] else []
  {
    assert [a][1..] == [];
  }

  /** The pieces of `Vertical`, edge by edge. */
  lemma VerticalPieces(f: Frame, e: Edge)
    ensures Select(FixedHeight(f), e) == if e == HeightDimension then FixedHeight(f) else []
    ensures Select([TopAnchor(f)], e) == if e == TopEdge then [TopAnchor(f)] else []
    ensures Select(BottomAnchor(f), e) == if e == BottomEdge then BottomAnchor(f) else []
  {
    SelectOne(TopAnchor(f), e);
    if f.height.Some? {
      SelectOne(EqualHeight(f.height.value as real), e);
    }
    if f.last {
      SelectOne(BottomToParent(BottomOffset(f)), e);
    }
  }

  /**
   * Every view has exactly one top edge, chained to the previous sibling when
   * there is one; only the last child pins its bottom; a fixed height
   * appears exactly when a height is given.
   */
  lemma VerticalRules(f: Frame)
    ensures Select(Vertical(f), TopEdge) == [TopAnchor(f)]
    ensures TopAnchor(f).TopToSibling? <==> f.siblingMargin.Some?
    ensures Select(Vertical(f), BottomEdge) == if f.last then [BottomToParent(BottomOffset(f))] else []
    ensures Select(Vertical(f), HeightDimension) == if f.height.Some? then [EqualHeight(f.height.value as real)] else []
    ensures Select(Vertical(f), WidthDimension) == [] && Select(Vertical(f), HorizontalEdge) == []
  {
    VerticalEdge(f, TopEdge);
    VerticalEdge(f, BottomEdge);
    VerticalEdge(f, HeightDimension);
    VerticalEdge(f, WidthDimension);
    VerticalEdge(f, HorizontalEdge);
  }

  lemma VerticalEdge(f: Frame, e: Edge)
    ensures Select(Vertical(f), e) ==
      (if e == HeightDimension then FixedHeight(f) else [])
      + (if e == TopEdge then [TopAnchor(f)] else [])
      + (if e == BottomEdge then BottomAnchor(f) else [])
  {
    SelectThree(FixedHeight(f), [TopAnchor(f)], BottomAnchor(f), e);
    VerticalPieces(f, e);
  }

  /**
   * Block, label and image: with a width, the width is fixed and exactly one
   * horizontal edge follows the parent's alignment; without one, the view
   * is pinned on both sides inside the parent's padding and its own margin.
   */
  lemma BlockRules(f: Frame)
    ensures Select(BlockAnchors(f), WidthDimension) == if f.width.Some? then [EqualWidth(f.width.value as real)] else []
    ensures Select(BlockAnchors(f), HorizontalEdge) ==
      if f.width.Some? then [AlignAnchor(f)] else [Leading(LeadingOffset(f)), Trailing(TrailingOffset(f))]
    ensures Select(BlockAnchors(f), TopEdge) == [TopAnchor(f)]
    ensures Select(BlockAnchors(f), BottomEdge) == if f.last then [BottomToParent(BottomOffset(f))] else []
    ensures Select(BlockAnchors(f), HeightDimension) == if f.height.Some? then [EqualHeight(f.height.value as real)] else []
  {
    VerticalRules(f);
    HorizontalPieces(f, WidthDimension);
    HorizontalPieces(f, HorizontalEdge);
    HorizontalPieces(f, TopEdge);
    HorizontalPieces(f, BottomEdge);
    HorizontalPieces(f, HeightDimension);
    BlockEdge(f, WidthDimension);
    BlockEdge(f, HorizontalEdge);
    BlockEdge(f, TopEdge);
    BlockEdge(f, BottomEdge);
    BlockEdge(f, HeightDimension);
  }

  lemma HorizontalPieces(f: Frame, e: Edge)
    ensures Select(Horizontal(f), e) ==
      if e == WidthDimension then (if f.width.Some? then [EqualWidth(f.width.value as real)] else [])
      else if e == HorizontalEdge then (if f.width.Some? then [AlignAnchor(f)] else [Leading(LeadingOffset(f)), Trailing(TrailingOffset(f))])
      else []
  {
    var h := Horizontal(f);
    assert h == [h[0]] + [h[1]];
    SelectAppend([h[0]], [h[1]], e);
    SelectOne(h[0], e);
    SelectOne(h[1], e);
  }

  lemma BlockEdge(f: Frame, e: Edge)
    ensures Select(BlockAnchors(f), e) == Select(Horizontal(f), e) + Select(Vertical(f), e)
  {
    SelectAppend(Horizontal(f), Vertical(f), e);
  }

  /** The alignment of a fixed-width view: centred, pinned right, or pinned left for any other value or none. */
  lemma AlignRules(attrs: Attributes, p: Placement)
    ensures var f := FrameOf(attrs, p);
      (AlignAnchor(f) == CenterX <==> "align" in p.parent && p.parent["align"] == "center")
      && (AlignAnchor(f).Trailing? <==> "align" in p.parent && p.parent["align"] == "right")
      && (AlignAnchor(f).Leading? <==> !("align" in p.parent && p.parent["align"] in {"center", "right"}))
  {
  }

  /** Missing padding and margins count as zero insets. */
  lemma MissingInsetsAreZero(attrs: Attributes, p: Placement)
    ensures "margin" !in attrs ==> FrameOf(attrs, p).margin == Zero
    ensures "padding" !in p.parent ==> FrameOf(attrs, p).parentPadding == Zero
    ensures forall s :: p.previousSibling == Some(s) && "margin" !in s ==> FrameOf(attrs, p).siblingMargin == Some(Zero)
  {
  }

  /** Button: always one width anchor (fixed, or at most the parent's) and one alignment edge, never a two-sided fill. */
  /** The button's anchors for one edge: its width, its alignment, then the vertical anchors. */
  lemma ButtonEdge(f: Frame, e: Edge)
    ensures Select(ButtonAnchors(f), e) ==
      (if e == WidthDimension then [ButtonWidth(f)] else []) + (if e == HorizontalEdge then [AlignAnchor(f)] else []) + Select(Vertical(f), e)
  {
    assert [ButtonWidth(f), AlignAnchor(f)] == [ButtonWidth(f)] + [AlignAnchor(f)];
    SelectThree([ButtonWidth(f)], [AlignAnchor(f)], Vertical(f), e);
    SelectOne(ButtonWidth(f), e);
    SelectOne(AlignAnchor(f), e);
  }

  lemma ButtonRules(f: Frame)
    ensures Select(ButtonAnchors(f), WidthDimension) == [if f.width.Some? then EqualWidth(f.width.value as real) else WidthAtMost]
    ensures Select(ButtonAnchors(f), HorizontalEdge) == [AlignAnchor(f)]
    ensures Select(ButtonAnchors(f), TopEdge) == [TopAnchor(f)]
    ensures Select(ButtonAnchors(f), BottomEdge) == if f.last then [BottomToParent(BottomOffset(f))] else []
  {
    VerticalRules(f);
    ButtonEdge(f, WidthDimension);
    ButtonEdge(f, HorizontalEdge);
    ButtonEdge(f, TopEdge);
    ButtonEdge(f, BottomEdge);
  }
}
