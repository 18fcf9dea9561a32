/** `AcceleraImageView`: an image loaded from `src`, sized by its aspect ratio. */
module ImageViewKind {
  import opened Wrappers
  import opened ElementTree
  import opened RenderingElement
  import opened Layout
  import opened Views
  import Block

  // ---------------------------------------------------------------------
  // prepare
  // ---------------------------------------------------------------------

  /**
   * The address `prepare` tries to load: `src` when it is present, not
   * empty, and `URL(string:)` accepts it (`isUrl`).
   */
  function ImageSource(attrs: Attributes, isUrl: string -> bool): (r: Option<string>)
    ensures r.Some? <==> "src" in attrs && attrs["src"] != "" && isUrl(attrs["src"])
    ensures r.Some? ==> r.value == attrs["src"]
  {
    if "src" in attrs && attrs["src"] != "" && isUrl(attrs["src"]) then Some(attrs["src"]) else None
  }

  /** The look once the loaded image is set; `load` stands for reading and decoding the data at an address. */
  function Loaded(look: Look, attrs: Attributes, isUrl: string -> bool, load: string -> Option<ImageSize>): Look {
    var src := ImageSource(attrs, isUrl);
    if src.Some? && load(src.value).Some? then look.(aspectFill := true, image := load(src.value)) else look
  }

  /**
   * `prepare(completion:)`: the completion runs once on every path; the
   * address whose load was attempted is returned as `requested`.
   */
  method Prepare(view: View, isUrl: string -> bool, load: string -> Option<ImageSize>)
    returns (completions: nat, requested: Option<string>)
    requires view.Valid()
    modifies view, view.Footprint()
    ensures completions == 1
    ensures view.cache.Some? && view.element == old(view.element)
    ensures requested == if view.viewType == ImageView then ImageSource(view.Attributes(), isUrl) else None
    ensures view.CurrentLook() ==
      if view.viewType != ImageView then old(view.CurrentLook())
      else Loaded(old(view.CurrentLook()), view.Attributes(), isUrl, load)
  {
    completions := 1;
    requested := None;
    var ui := view.GetView();
    if ui.viewType != ImageView {
      return;
    }
    var attrs := view.element.attributes;
    if "src" in attrs && attrs["src"] != "" && isUrl(attrs["src"]) {
      requested := Some(attrs["src"]);
      var image := load(attrs["src"]);
      if image.Some? {
        ui.look := ui.look.(aspectFill := true, image := image);
      }
    }
  }

  /** Nothing is loaded, and the look is kept, unless `src` is a non-empty valid address whose data decodes. */
  lemma LoadRules(look: Look, attrs: Attributes, isUrl: string -> bool, load: string -> Option<ImageSize>)
    ensures "src" !in attrs || attrs["src"] == "" ==> Loaded(look, attrs, isUrl, load) == look
    ensures ImageSource(attrs, isUrl).Some? && load(attrs["src"]).Some? ==>
      Loaded(look, attrs, isUrl, load).image == load(attrs["src"]) && Loaded(look, attrs, isUrl, load).aspectFill
    ensures Loaded(look, attrs, isUrl, load).constraints == look.constraints
  {
  }

  // ---------------------------------------------------------------------
  // render
  // ---------------------------------------------------------------------

  function Ratio(img: ImageSize): real {
    img.width / img.height
  }

  /** The height that keeps the ratio for a given width. */
  function HeightFor(width: real, img: ImageSize): real {
    width / Ratio(img)
  }

  /** The width that keeps the ratio for a given height. */
  function WidthFor(height: real, img: ImageSize): real {
    height * Ratio(img)
  }

  /** The size the image's aspect ratio derives when exactly one of width and height is given. */
  function DerivedSize(f: Frame, img: ImageSize): seq<Anchor> {
    if f.width.Some? && f.height.None? then [EqualHeight(HeightFor(f.width.value as real, img))]
    else if f.height.Some? && f.width.None? then [EqualWidth(WidthFor(f.height.value as real, img))]
    else []
  }

  /** The derived size followed by the block's constraints. */
  function ImageAnchors(f: Frame, img: ImageSize): seq<Anchor> {
    DerivedSize(f, img) + BlockAnchors(f)
  }

  /** Corner radius always; border only when it parses (no background, unlike the block). */
  function ImageStyled(look: Look, attrs: Attributes): Look {
    var border := BorderOf(attrs);
    look.(
      cornerRadius := BorderRadius(attrs).GetOr(0) as real,
      borderWidth := if border.Some? then border.value.size as real else look.borderWidth,
      borderColor := if border.Some? then Some(border.value.color) else look.borderColor)
  }

  function ImageRendered(look: Look, attrs: Attributes, f: Frame): Look
    requires look.image.Some?
  {
    ImageStyled(look, attrs).(translatesMask := false, constraints := look.constraints + ImageAnchors(f, look.image.value))
  }

  /** `render(parent:previousSibling:last:)`: nothing at all until an image is loaded. */
  method Render(view: View, parent: View, previousSibling: Option<View>, last: bool)
    requires view.Valid()
    modifies view, view.Footprint()
    ensures view.cache.Some? && view.element == old(view.element)
    ensures view.CurrentLook() ==
      if view.viewType != ImageView || old(view.CurrentLook()).image.None? then old(view.CurrentLook())
      else ImageRendered(old(view.CurrentLook()), view.Attributes(), old(FrameFor(view, parent, previousSibling, last)))
  {
    var f := FrameFor(view, parent, previousSibling, last);
    var attrs := view.element.attributes;
    var ui := view.GetView();
    if ui.viewType != ImageView || ui.look.image.None? {
      return;
    }
    Decorate(ui, attrs, f);
  }

  /** The body of `render` once an image is known to be loaded. */
  method Decorate(ui: UIView, attrs: Attributes, f: Frame)
    requires ui.look.image.Some?
    modifies ui
    ensures old(ui.look).image.Some? && ui.look == ImageRendered(old(ui.look), attrs, f)
  {
    var image := ui.look.image.value;
    ApplyImageStyle(ui, attrs);
    Position(ui, f, image);
  }

  /** The constraint part of `render`: the derived size, then the block's constraints. */
  method Position(ui: UIView, f: Frame, img: ImageSize)
    modifies ui
    ensures ui.look == old(ui.look).(translatesMask := false, constraints := old(ui.look.constraints) + ImageAnchors(f, img))
  {
    ghost var before := ui.look.constraints;
    ui.look := ui.look.(translatesMask := false);
    ActivateDerivedSize(ui, f, img);
    Block.ActivateBlockAnchors(ui, f);
    assert ui.look.constraints == before + ImageAnchors(f, img) by {
      assert before + DerivedSize(f, img) + BlockAnchors(f) == before + (DerivedSize(f, img) + BlockAnchors(f));
    }
  }

  method ApplyImageStyle(ui: UIView, attrs: Attributes)
    modifies ui
    ensures ui.look == ImageStyled(old(ui.look), attrs)
  {
    ui.look := ui.look.(cornerRadius := BorderRadius(attrs).GetOr(0) as real);
    var border := BorderOf(attrs);
    if border.Some? {
      ui.look := ui.look.(borderWidth := border.value.size as real, borderColor := Some(border.value.color));
    }
  }

  method ActivateDerivedSize(ui: UIView, f: Frame, img: ImageSize)
    modifies ui
    ensures ui.look == old(ui.look).(constraints := old(ui.look.constraints) + DerivedSize(f, img))
  {
    var cs := ui.look.constraints;
    if f.width.Some? && f.height.None? {
      cs := cs + [EqualHeight(HeightFor(f.width.value as real, img))];
    } else if f.height.Some? && f.width.None? {
      cs := cs + [EqualWidth(WidthFor(f.height.value as real, img))];
    }
    ui.look := ui.look.(constraints := cs);
  }

  /** The derived size keeps the image's proportions: width over height equals the image's ratio. */
  lemma DerivedKeepsAspect(f: Frame, img: ImageSize)
    ensures f.width.Some? && f.height.None? ==>
      |DerivedSize(f, img)| == 1 && DerivedSize(f, img)[0].EqualHeight?
      && DerivedSize(f, img)[0].c * Ratio(img) == f.width.value as real
    ensures f.height.Some? && f.width.None? ==>
      |DerivedSize(f, img)| == 1 && DerivedSize(f, img)[0].EqualWidth?
      && DerivedSize(f, img)[0].c == f.height.value as real * Ratio(img)
    ensures f.width.Some? == f.height.Some? ==> DerivedSize(f, img) == []
  {
    var r := Ratio(img);
    assert r > 0.0;
    if f.width.Some? && f.height.None? {
      var h := HeightFor(f.width.value as real, img);
      assert h * r == f.width.value as real;
      assert DerivedSize(f, img) == [EqualHeight(h)];
    } else if f.height.Some? && f.width.None? {
      assert DerivedSize(f, img) == [EqualWidth(WidthFor(f.height.value as real, img))];
    }
  }

  lemma DerivedEdges(f: Frame, img: ImageSize, e: Edge)
    ensures Select(DerivedSize(f, img), e) ==
      if (e == WidthDimension && f.height.Some? && f.width.None?)
         || (e == HeightDimension && f.width.Some? && f.height.None?) then DerivedSize(f, img) else []
  {
    var d := DerivedSize(f, img);
    if d != [] {
      assert d == [d[0]];
      SelectOne(d[0], e);
    }
  }

  /**
   * Once either dimension is given the image gets exactly one width and one
   * height; the positioning relationships are the block's.
   */
  lemma ImageRules(f: Frame, img: ImageSize)
    ensures f.width.Some? || f.height.Some? ==>
      |Select(ImageAnchors(f, img), WidthDimension)| == 1 && |Select(ImageAnchors(f, img), HeightDimension)| == 1
    ensures f.width.None? && f.height.None? ==>
      Select(ImageAnchors(f, img), WidthDimension) == [] && Select(ImageAnchors(f, img), HeightDimension) == []
    ensures Select(ImageAnchors(f, img), TopEdge) == [TopAnchor(f)]
    ensures Select(ImageAnchors(f, img), BottomEdge) == Select(BlockAnchors(f), BottomEdge)
    ensures Select(ImageAnchors(f, img), HorizontalEdge) == Select(BlockAnchors(f), HorizontalEdge)
  {
    DerivedEdges(f, img, WidthDimension);
    DerivedEdges(f, img, HeightDimension);
    DerivedEdges(f, img, TopEdge);
    DerivedEdges(f, img, BottomEdge);
    DerivedEdges(f, img, HorizontalEdge);
    BlockRules(f);
    SelectAppend(DerivedSize(f, img), BlockAnchors(f), WidthDimension);
    SelectAppend(DerivedSize(f, img), BlockAnchors(f), HeightDimension);
    SelectAppend(DerivedSize(f, img), BlockAnchors(f), TopEdge);
    SelectAppend(DerivedSize(f, img), BlockAnchors(f), BottomEdge);
    SelectAppend(DerivedSize(f, img), BlockAnchors(f), HorizontalEdge);
  }
}
