/** `AcceleraBlock`: a plain container view, and `AcceleraSpacer`, a block with a default height. */
module Block {
  import opened Wrappers
  import opened ElementTree
  import opened RenderingElement
  import opened Layout
  import opened Views

  /** The layer styling `render` applies: background and border only when given, corner radius always. */
  function Styled(look: Look, attrs: Attributes): Look {
    var bg := BackgroundColor(attrs);
    var border := BorderOf(attrs);
    look.(
      backgroundColor := if bg.Some? then bg else look.backgroundColor,
      cornerRadius := BorderRadius(attrs).GetOr(0) as real,
      borderWidth := if border.Some? then border.value.size as real else look.borderWidth,
      borderColor := if border.Some? then Some(border.value.color) else look.borderColor)
  }

  /** The look after `render`: styled, managed by Auto Layout, and with the block's anchors added after the existing ones. */
  function Rendered(look: Look, attrs: Attributes, f: Frame): Look {
    Styled(look, attrs).(translatesMask := false, constraints := look.constraints + BlockAnchors(f))
  }

  /** `prepare(completion:)`: calls the completion once, at once. */
  method Prepare(view: View) returns (completions: nat)
    ensures completions == 1
  {
    completions := 1;
  }

  /** `render(parent:previousSibling:last:)`: style the layer, then activate the block's constraints. */
  method Render(view: View, parent: View, previousSibling: Option<View>, last: bool)
    modifies view, view.Footprint()
    ensures view.cache.Some? && view.element == old(view.element)
    ensures view.CurrentLook() == Rendered(old(view.CurrentLook()), view.Attributes(), old(FrameFor(view, parent, previousSibling, last)))
  {
    var f := FrameFor(view, parent, previousSibling, last);
    var attrs := view.element.attributes;
    var u := view.GetView();
    Decorate(u, attrs, f);
  }

  /** The body of `render` on the view's `UIView`. */
  method Decorate(u: UIView, attrs: Attributes, f: Frame)
    modifies u
    ensures u.look == Rendered(old(u.look), attrs, f)
  {
    u.look := u.look.(translatesMask := false);
    ApplyStyle(u, attrs);
    ActivateBlockAnchors(u, f);
  }

  /** The background, corner radius and border lines of `render`. */
  method ApplyStyle(u: UIView, attrs: Attributes)
    modifies u
    ensures u.look == Styled(old(u.look), attrs)
  {
    var bg := BackgroundColor(attrs);
    if bg.Some? {
      u.look := u.look.(backgroundColor := bg);
    }
    u.look := u.look.(cornerRadius := BorderRadius(attrs).GetOr(0) as real);
    var border := BorderOf(attrs);
    if border.Some? {
      u.look := u.look.(borderWidth := border.value.size as real, borderColor := Some(border.value.color));
    }
  }

  /** The constraint lines of the block's (and the label's and image's) `render`, activated in order. */
  method ActivateBlockAnchors(u: UIView, f: Frame)
    modifies u
    ensures u.look == old(u.look).(constraints := old(u.look.constraints) + BlockAnchors(f))
  {
    ActivateHorizontal(u, f);
    ActivateVertical(u, f);
  }

  /** A fixed width with the parent's alignment, or both sides pinned. */
  method ActivateHorizontal(u: UIView, f: Frame)
    modifies u
    ensures u.look == old(u.look).(constraints := old(u.look.constraints) + Horizontal(f))
  {
    var cs := u.look.constraints;
    if f.width.Some? {
      cs := cs + [EqualWidth(f.width.value as real)];
      cs := cs + [AlignAnchor(f)];
    } else {
      cs := cs + [Leading(LeadingOffset(f))];
      cs := cs + [Trailing(TrailingOffset(f))];
    }
    u.look := u.look.(constraints := cs);
  }

  /** The height when given, the top edge, and the bottom edge of the last child: the part every view shares. */
  method ActivateVertical(u: UIView, f: Frame)
    modifies u
    ensures u.look == old(u.look).(constraints := old(u.look.constraints) + Vertical(f))
  {
    var cs := u.look.constraints;
    if f.height.Some? {
      cs := cs + [EqualHeight(f.height.value as real)];
    }
    cs := cs + [TopAnchor(f)];
    if f.last {
      cs := cs + [BottomToParent(BottomOffset(f))];
    }
    u.look := u.look.(constraints := cs);
  }

  /** Rendering keeps the constraints already installed and only adds after them; the styling follows the attributes. */
  lemma RenderedRules(look: Look, attrs: Attributes, f: Frame)
    ensures var r := Rendered(look, attrs, f);
      r.constraints[..|look.constraints|] == look.constraints
      && r.constraints[|look.constraints|..] == BlockAnchors(f)
      && !r.translatesMask
      && r.cornerRadius == (if BorderRadius(attrs).Some? then BorderRadius(attrs).value as real else 0.0)
      && (BackgroundColor(attrs).None? ==> r.backgroundColor == look.backgroundColor)
      && (BorderOf(attrs).None? ==> r.borderWidth == look.borderWidth && r.borderColor == look.borderColor)
      && r.text == look.text && r.image == look.image
  {
    var r := Rendered(look, attrs, f);
    assert r.constraints == look.constraints + BlockAnchors(f);
  }

  // ---------------------------------------------------------------------
  // AcceleraSpacer
  // ---------------------------------------------------------------------

  /** `setAttribute`: a map update on the element. */
  function SetAttribute(e: Node, name: string, value: string): (r: Node)
    ensures r.attributes == e.attributes[name := value]
    ensures r.name == e.name && r.text == e.text && r.children == e.children
  {
    e.(attributes := e.attributes[name := value])
  }

  /** `AcceleraSpacer.prepare`: a spacer whose height does not resolve gets height "10", then the block's `prepare` runs. */
  method SpacerPrepare(view: View) returns (completions: nat)
    modifies view
    ensures view.element == if Height(old(view.element.attributes)).None? then SetAttribute(old(view.element), "height", "10") else old(view.element)
    ensures view.cache == old(view.cache) && view.hasAction == old(view.hasAction)
    ensures completions == 1
  {
    if Height(view.element.attributes).None? {
      view.element := SetAttribute(view.element, "height", "10");
    }
    completions := Prepare(view);
  }

  lemma TenIsTen()
    ensures Height(map["height" := "10"]) == Some(10)
  {
    var t := "10";
    assert SwiftText.AllAsciiDigits(t);
    StringExt.DigitsOfDigitString(t);
    assert SwiftText.DecimalValue(t) == 10;
  }

  /**
   * After the spacer's `prepare` the height always resolves: to the given
   * one when it had a digit, otherwise to 10 (a digit-free "auto" or "" is
   * overwritten). No other attribute changes.
   */
  lemma SpacerHeight(attrs: Attributes)
    ensures var after := if Height(attrs).None? then attrs["height" := "10"] else attrs;
      Height(after).Some?
      && (Height(attrs).Some? ==> Height(after) == Height(attrs))
      && (Height(attrs).None? ==> Height(after) == Some(10))
      && (forall k :: k != "height" ==> (k in after <==> k in attrs) && (k in attrs ==> after[k] == attrs[k]))
  {
    if Height(attrs).None? {
      var after := attrs["height" := "10"];
      assert after["height"] == "10";
      assert Height(after) == Height(map["height" := "10"]);
      TenIsTen();
    }
  }
}
