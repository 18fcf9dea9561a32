/** `AcceleraButton`: a tappable title whose look has defaults for every attribute left out. */
module Button {
  import opened Wrappers
  import opened ElementTree
  import opened RenderingElement
  import opened Layout
  import opened Views
  import Block

  /** Padding when none is given: 14 above and below, 40 at the sides. */
  const DefaultPadding: Insets := Insets(14, 40, 14, 40)
  const DefaultFontSize: nat := 15
  const MaxCornerRadius: real := 24.0
  const DefaultBackground: Color := Hex("#0091ff")

  function ButtonPadding(attrs: Attributes): Insets {
    Padding(attrs).GetOr(DefaultPadding)
  }

  function ButtonFontSize(attrs: Attributes): nat {
    FontSize(attrs).GetOr(DefaultFontSize)
  }

  /** Half the content height (padding above and below plus the font size), capped at 24. */
  function CornerRadiusFor(padding: Insets, fontSize: nat): (r: real)
    ensures r <= MaxCornerRadius
    ensures r == MaxCornerRadius || 2.0 * r == (padding.top + padding.bottom + fontSize) as real
  {
    var height := (padding.top + padding.bottom + fontSize) as real;
    if height / 2.0 > MaxCornerRadius then MaxCornerRadius else height / 2.0
  }

  /** The look `applyAttributes` gives a new button; `title` is the element's text. */
  function ButtonStyled(look: Look, attrs: Attributes, title: Option<string>): Look {
    var padding := ButtonPadding(attrs);
    var fontSize := ButtonFontSize(attrs);
    look.(
      clipsToBounds := true,
      text := title,
      textColor := TextColor(attrs),
      wordWrapping := true,
      contentInsets := padding,
      cornerRadius := CornerRadiusFor(padding, fontSize),
      backgroundColor := Some(BackgroundColor(attrs).GetOr(DefaultBackground)),
      fontSize := fontSize as real,
      tapTarget := true)
  }

  /**
   * `init(element:action:completion:)`: a button view created with its
   * `UIButton`, styled, and the completion called once. `hasAction` says
   * whether an action closure was passed.
   */
  method New(element: Node, hasAction: bool, id: nat) returns (view: View, completions: nat)
    ensures fresh(view) && view.Valid() && view.id == id && view.element == element
    ensures view.viewType == ButtonView && view.cache.Some? && view.hasAction == hasAction
    ensures view.CurrentLook() == ButtonStyled(InitialLook, element.attributes, element.text)
    ensures completions == 1
  {
    var button := new UIView(ButtonView);
    view := new View.WithView(element, button, id);
    view.hasAction := hasAction;
    ApplyAttributes(view);
    completions := 1;
  }

  /** `applyAttributes()`: a view that is not a `UIButton` is left as it is. */
  method ApplyAttributes(view: View)
    requires view.Valid()
    modifies view, view.Footprint()
    ensures view.cache.Some? && view.element == old(view.element) && view.hasAction == old(view.hasAction)
    ensures view.Valid() && (old(view.cache).Some? ==> view.cache == old(view.cache))
    ensures view.CurrentLook() ==
      if view.viewType != ButtonView then old(view.CurrentLook())
      else ButtonStyled(old(view.CurrentLook()), view.Attributes(), view.element.text)
  {
    var button := view.GetView();
    if button.viewType != ButtonView {
      return;
    }
    Style(button, view.element.attributes, view.element.text);
  }

  /** The property assignments of `applyAttributes`, in order. */
  method Style(button: UIView, attrs: Attributes, title: Option<string>)
    modifies button
    ensures button.look == ButtonStyled(old(button.look), attrs, title)
  {
    button.look := button.look.(clipsToBounds := true, text := title);
    button.look := button.look.(textColor := TextColor(attrs), wordWrapping := true);
    var padding := ButtonPadding(attrs);
    button.look := button.look.(contentInsets := padding);
    var fontSize := ButtonFontSize(attrs);
    button.look := button.look.(cornerRadius := CornerRadiusFor(button.look.contentInsets, fontSize));
    button.look := button.look.(backgroundColor := Some(BackgroundColor(attrs).GetOr(DefaultBackground)));
    button.look := button.look.(fontSize := fontSize as real, tapTarget := true);
  }

  /**
   * Every attribute left out has its default; whatever is given, the corner
   * radius is half the content height but never more than 24.
   */
  lemma ButtonDefaults(look: Look, attrs: Attributes, title: Option<string>)
    ensures var b := ButtonStyled(look, attrs, title);
      ("padding" !in attrs ==> b.contentInsets == DefaultPadding)
      && ("font-size" !in attrs ==> b.fontSize == 15.0)
      && (BackgroundColor(attrs).None? ==> b.backgroundColor == Some(Hex("#0091ff")))
      && (BackgroundColor(attrs).Some? ==> b.backgroundColor == BackgroundColor(attrs))
      && b.cornerRadius <= 24.0
      && (b.cornerRadius < 24.0 ==> 2.0 * b.cornerRadius == (b.contentInsets.top + b.contentInsets.bottom) as real + b.fontSize)
      && b.clipsToBounds && b.tapTarget && b.text == title
      && b.constraints == look.constraints
  {
    MissingAndEmptyInsets(attrs, "padding");
  }

  /** With no padding and no font size, the radius is (14 + 14 + 15) / 2. */
  lemma DefaultCornerRadius(attrs: Attributes)
    requires "padding" !in attrs && "font-size" !in attrs
    ensures CornerRadiusFor(ButtonPadding(attrs), ButtonFontSize(attrs)) == 21.5
  {
    MissingAndEmptyInsets(attrs, "padding");
  }

  /** `setConstraints(parent:previousSibling:last:)`. */
  method SetConstraints(view: View, parent: View, previousSibling: Option<View>, last: bool)
    modifies view, view.Footprint()
    ensures view.cache.Some? && view.element == old(view.element) && view.hasAction == old(view.hasAction)
    ensures view.CurrentLook() == old(view.CurrentLook()).(
      translatesMask := false,
      constraints := old(view.CurrentLook()).constraints + ButtonAnchors(old(FrameFor(view, parent, previousSibling, last))))
  {
    var f := FrameFor(view, parent, previousSibling, last);
    var v := view.GetView();
    v.look := v.look.(translatesMask := false);
    ActivateButtonAnchors(v, f);
  }

  method ActivateButtonAnchors(v: UIView, f: Frame)
    modifies v
    ensures v.look == old(v.look).(constraints := old(v.look.constraints) + ButtonAnchors(f))
  {
    var cs := v.look.constraints;
    if f.width.Some? {
      cs := cs + [EqualWidth(f.width.value as real)];
    } else {
      cs := cs + [WidthAtMost];
    }
    cs := cs + [AlignAnchor(f)];
    v.look := v.look.(constraints := cs);
    Block.ActivateVertical(v, f);
  }

  /** `buttonAction()`: the `href` passed to the action, when there is one and an action is set. */
  method Tap(view: View) returns (sent: Option<string>)
    ensures sent == if view.hasAction then Href(view.Attributes()) else None
  {
    sent := None;
    var href := Href(view.element.attributes);
    if href.Some? && view.hasAction {
      sent := href;
    }
  }

  /** A tap sends something only with an action set and a non-empty `href`, and then sends `href` itself. */
  lemma TapRules(hasAction: bool, attrs: Attributes)
    ensures var sent := if hasAction then Href(attrs) else None;
      (sent.Some? <==> hasAction && "href" in attrs && attrs["href"] != "")
      && (sent.Some? ==> sent.value == attrs["href"])
  {
  }
}
