/**
 * `AcceleraBannerView`: the container a banner is shown in. It holds the top
 * Accelera view and a close button, pins itself to its superview according
 * to the banner type, and reports being added and being closed.
 */
module BannerViews {
  import opened Wrappers
  import opened RenderingElement
  import opened Config
  import opened ViewTree

  /** The banner's own constraints against its superview (or the top view's bottom). */
  datatype Pin = TopToSuperview | LeadingToSuperview | TrailingToSuperview | BottomToSuperview | CenterYToSuperview | BottomToContent

  /** Constraints against the safe-area guide, and fixed sizes. */
  datatype GuidePin = GuideTop(c: int) | GuideLeading | GuideTrailing(c: int) | FixedWidth(c: int) | FixedHeight(c: int)

  datatype Subview = Content(id: nat) | CloseButtonView

  /** The calls the banner makes on its delegate. */
  datatype BannerEvent = Added | Closed

  /** The close button as `createCloseButton` configures it. */
  datatype CloseButton = CloseButton(title: string, color: Color, pins: seq<GuidePin>, tapTarget: bool)

  // ---------------------------------------------------------------------
  // Background search
  // ---------------------------------------------------------------------

  /** The views on the first-child chain from `t`: `t`, its first descendent, that one's first descendent, and so on. */
  function FirstChain(t: ViewNode): (r: seq<ViewNode>)
    ensures r != [] && r[0] == t
  {
    [t] + if t.descendents == [] then [] else FirstChain(t.descendents[0])
  }

  function Background(t: ViewNode): Option<Color> {
    BackgroundColor(t.element.attributes)
  }

  /** The background `getBackgroundColor` finds, stated recursively. */
  function ChainBackground(t: ViewNode): Option<Color> {
    if Background(t).Some? then Background(t)
    else if t.descendents == [] then None
    else ChainBackground(t.descendents[0])
  }

  /** Below a view without a background, the chain continues with its first descendent's chain. */
  lemma ChainStep(t: ViewNode)
    requires t.descendents != []
    ensures FirstChain(t) == [t] + FirstChain(t.descendents[0])
  {
  }

  /** The search finds nothing exactly when no view on the first-child chain has a background. */
  lemma {:induction false} NoBackgroundOnChain(t: ViewNode)
    ensures ChainBackground(t).None? <==> forall i :: 0 <= i < |FirstChain(t)| ==> Background(FirstChain(t)[i]).None?
  {
    if Background(t).None? && t.descendents != [] {
      var c := t.descendents[0];
      NoBackgroundOnChain(c);
      ChainStep(t);
      if ChainBackground(t).None? {
        forall i | 0 <= i < |FirstChain(t)|
          ensures Background(FirstChain(t)[i]).None?
        {
          if i > 0 {
            assert FirstChain(t)[i] == FirstChain(c)[i - 1];
          }
        }
      } else {
        var k :| 0 <= k < |FirstChain(c)| && Background(FirstChain(c)[k]).Some?;
        assert FirstChain(t)[k + 1] == FirstChain(c)[k];
      }
    } else if t.descendents == [] {
      assert FirstChain(t) == [t];
    } else {
      assert Background(FirstChain(t)[0]).Some?;
    }
  }

  /** When the search finds a background, it is that of the first view on the chain that has one. */
  lemma {:induction false} FirstBackgroundOnChain(t: ViewNode)
    ensures ChainBackground(t).Some? ==>
      exists i :: 0 <= i < |FirstChain(t)| && Background(FirstChain(t)[i]) == ChainBackground(t)
        && forall j :: 0 <= j < i ==> Background(FirstChain(t)[j]).None?
  {
    if Background(t).Some? {
      assert Background(FirstChain(t)[0]) == ChainBackground(t);
    } else if t.descendents != [] && ChainBackground(t).Some? {
      var c := t.descendents[0];
      FirstBackgroundOnChain(c);
      ChainStep(t);
      var k :| 0 <= k < |FirstChain(c)| && Background(FirstChain(c)[k]) == ChainBackground(c)
        && forall j :: 0 <= j < k ==> Background(FirstChain(c)[j]).None?;
      assert Background(FirstChain(t)[k + 1]) == ChainBackground(t);
      forall j | 0 <= j < k + 1
        ensures Background(FirstChain(t)[j]).None?
      {
        if j > 0 {
          assert FirstChain(t)[j] == FirstChain(c)[j - 1];
        }
      }
    }
  }

  /** `getBackgroundColor()`: walk down the first-child chain until a view has a background. */
  method FindBackground(top: ViewNode) returns (bgColor: Option<Color>)
    ensures bgColor == ChainBackground(top)
  {
    bgColor := None;
    var view: Option<ViewNode> := Some(top);
    while view.Some?
      invariant view.Some? ==> bgColor.None? && ChainBackground(view.value) == ChainBackground(top)
      invariant view.None? ==> bgColor == ChainBackground(top)
      decreases if view.Some? then |FirstChain(view.value)| else 0
    {
      var v := view.value;
      if BackgroundColor(v.element.attributes).Some? {
        bgColor := BackgroundColor(v.element.attributes);
        view := None;
      } else if v.descendents == [] {
        view := None;
      } else {
        view := Some(v.descendents[0]);
      }
    }
  }

  // ---------------------------------------------------------------------
  // Close button and constraints
  // ---------------------------------------------------------------------

  /** White only on a background that `isLight` calls dark; black otherwise, also without a background. */
  function CloseButtonColor(bg: Option<Color>, isLight: Color -> bool): (c: Color)
    ensures c == White <==> bg.Some? && !isLight(bg.value)
    ensures c == Black <==> !(bg.Some? && !isLight(bg.value))
  {
    if bg.Some? && !isLight(bg.value) then White else Black
  }

  /** 24 by 24, 10 points inside the top view's padding at the top right of the safe area. */
  function ClosePins(padding: Option<Insets>): seq<GuidePin> {
    var top := if padding.Some? then padding.value.top else 0;
    var right := if padding.Some? then padding.value.right else 0;
    [FixedWidth(24), FixedHeight(24), GuideTop(10 + top), GuideTrailing(-10 - right)]
  }

  lemma ClosePinsRules(padding: Option<Insets>)
    ensures |ClosePins(padding)| == 4
    ensures ClosePins(padding)[0] == FixedWidth(24) && ClosePins(padding)[1] == FixedHeight(24)
    ensures padding.None? ==> ClosePins(padding)[2] == GuideTop(10) && ClosePins(padding)[3] == GuideTrailing(-10)
    ensures padding.Some? ==>
      ClosePins(padding)[2].c == 10 + padding.value.top && ClosePins(padding)[3].c == -10 - padding.value.right
  {
  }

  /** `didMoveToSuperview`: the banner's constraints per type. */
  function PinsFor(t: BannerType): seq<Pin> {
    match t
    case Fullscreen => [TopToSuperview, LeadingToSuperview, TrailingToSuperview, BottomToSuperview]
    case Top => [TopToSuperview, LeadingToSuperview, TrailingToSuperview, BottomToContent]
    case Center => [CenterYToSuperview, LeadingToSuperview, TrailingToSuperview, BottomToContent]
    case Notification => [TopToSuperview, LeadingToSuperview, TrailingToSuperview, BottomToContent]
  }

  /** The top view is pinned to the safe area at the top, leading and trailing edges. */
  const ContentPins: seq<GuidePin> := [GuideTop(0), GuideLeading, GuideTrailing(0)]

  /**
   * Every type pins both sides to the superview and has exactly one bottom
   * constraint: the superview's bottom for fullscreen, the top view's bottom
   * otherwise. Only `.center` centres vertically instead of pinning the top.
   */
  lemma PinsRules(t: BannerType)
    ensures LeadingToSuperview in PinsFor(t) && TrailingToSuperview in PinsFor(t)
    ensures (BottomToSuperview in PinsFor(t)) <==> t == Fullscreen
    ensures (BottomToContent in PinsFor(t)) <==> t != Fullscreen
    ensures (CenterYToSuperview in PinsFor(t)) <==> t == Center
    ensures (TopToSuperview in PinsFor(t)) <==> t != Center
    ensures |PinsFor(t)| == 4
  {
  }

  // ---------------------------------------------------------------------
  // The banner view
  // ---------------------------------------------------------------------

  class BannerView {
    const bannerType: BannerType
    const topView: ViewNode
    var backgroundColor: Option<Color>
    var subviews: seq<Subview>
    var closeButton: Option<CloseButton>
    var hasSuperview: bool
    var translatesMask: bool
    var pins: seq<Pin>
    var contentPins: seq<GuidePin>
    /** The delegate calls made so far. */
    var events: seq<BannerEvent>

    /**
     * `init(topView:type:)`: only a fullscreen banner takes a background, the
     * first one down the top view's first-child chain; then the top view and
     * the close button are added. `isLight` is `UIColor.isLight()`.
     */
    constructor (topView: ViewNode, bannerType: BannerType, isLight: Color -> bool)
      ensures this.topView == topView && this.bannerType == bannerType
      ensures backgroundColor == if bannerType == Fullscreen then ChainBackground(topView) else None
      ensures subviews == [Content(topView.id), CloseButtonView]
      ensures closeButton == Some(CloseButton("\U{2715}", CloseButtonColor(ChainBackground(topView), isLight),
                                              ClosePins(Padding(topView.element.attributes)), true))
      ensures !hasSuperview && translatesMask && pins == [] && contentPins == [] && events == []
    {
      this.topView := topView;
      this.bannerType := bannerType;
      backgroundColor := None;
      subviews := [];
      closeButton := None;
      hasSuperview := false;
      translatesMask := true;
      pins := [];
      contentPins := [];
      events := [];
      new;
      if bannerType == Fullscreen {
        backgroundColor := FindBackground(topView);
      }
      subviews := subviews + [Content(topView.id)];
      CreateCloseButton(isLight);
    }

    /** `createCloseButton()`. */
    method CreateCloseButton(isLight: Color -> bool)
      modifies this`subviews, this`closeButton
      ensures subviews == old(subviews) + [CloseButtonView]
      ensures closeButton == Some(CloseButton("\U{2715}", CloseButtonColor(ChainBackground(topView), isLight),
                                              ClosePins(Padding(topView.element.attributes)), true))
    {
      subviews := subviews + [CloseButtonView];
      var bg := FindBackground(topView);
      var color := if bg.Some? && !isLight(bg.value) then White else Black;
      closeButton := Some(CloseButton("\U{2715}", color, ClosePins(Padding(topView.element.attributes)), true));
    }

    /** `willMove(toSuperview:)`: the delegate hears `onAdded` only when a banner without a superview gets one. */
    method WillMove(newSuperview: bool)
      modifies this`events
      ensures events == old(events) + if !hasSuperview && newSuperview then [Added] else []
    {
      if !hasSuperview && newSuperview {
        events := events + [Added];
      }
    }

    /** `didMoveToSuperview()`: with a superview, pin the banner by its type and the top view to the safe area. */
    method DidMoveToSuperview()
      modifies this`translatesMask, this`pins, this`contentPins
      ensures hasSuperview ==> !translatesMask && pins == old(pins) + PinsFor(bannerType)
                               && contentPins == old(contentPins) + ContentPins
      ensures !hasSuperview ==> translatesMask == old(translatesMask) && pins == old(pins) && contentPins == old(contentPins)
    {
      if hasSuperview {
        translatesMask := false;
        pins := pins + PinsFor(bannerType);
        contentPins := contentPins + ContentPins;
      }
    }

    /** UIKit's order when the banner is added to or removed from a superview. */
    method MoveTo(newSuperview: bool)
      modifies this`events, this`hasSuperview, this`translatesMask, this`pins, this`contentPins
      ensures hasSuperview == newSuperview
      ensures events == old(events) + if !old(hasSuperview) && newSuperview then [Added] else []
      ensures newSuperview ==> pins == old(pins) + PinsFor(bannerType) && contentPins == old(contentPins) + ContentPins
      ensures !newSuperview ==> pins == old(pins) && contentPins == old(contentPins)
    {
      WillMove(newSuperview);
      hasSuperview := newSuperview;
      DidMoveToSuperview();
    }

    /** `closeButtonPress()`. */
    method CloseButtonPress()
      modifies this`events
      ensures events == old(events) + [Closed]
    {
      events := events + [Closed];
    }
  }

  /** Moving a banner that already has a superview to another one does not report `onAdded` again. */
  method AddedOnce(b: BannerView)
    modifies b
    ensures b.hasSuperview
    ensures |b.events| <= |old(b.events)| + 1
    ensures old(b.hasSuperview) ==> b.events == old(b.events)
  {
    b.MoveTo(true);
    b.MoveTo(true);
  }
}
