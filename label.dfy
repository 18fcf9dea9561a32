/** `AcceleraLabel`: a text view whose size follows its heading level. */
module Label {
  import opened Wrappers
  import opened SwiftText
  import opened ElementTree
  import opened RenderingElement
  import opened Layout
  import opened Views
  import Block

  // ---------------------------------------------------------------------
  // Font size
  // ---------------------------------------------------------------------

  /** The size for a heading level: 32, 28 and 20 for levels 1 to 3, 16 for any other level, 15 with no level. */
  function LevelFontSize(level: Option<int>): nat {
    match level
    case None => 15
    case Some(l) => if l == 1 then 32 else if l == 2 then 28 else if l == 3 then 20 else 16
  }

  /** `element.fontSize ?? fontSize`: an explicit `font-size` wins over the level's size. */
  function EffectiveFontSize(attrs: Attributes): nat {
    FontSize(attrs).GetOr(LevelFontSize(Level(attrs)))
  }

  lemma FontSizeRules(attrs: Attributes)
    ensures FontSize(attrs).Some? ==> EffectiveFontSize(attrs) == FontSize(attrs).value
    ensures FontSize(attrs).None? && Level(attrs).None? ==> EffectiveFontSize(attrs) == 15
    ensures FontSize(attrs).None? && Level(attrs).Some? ==>
      EffectiveFontSize(attrs) == (if Level(attrs).value == 1 then 32 else if Level(attrs).value == 2 then 28
                                    else if Level(attrs).value == 3 then 20 else 16)
    ensures EffectiveFontSize(attrs) >= 15 || FontSize(attrs).Some?
  {
  }

  // ---------------------------------------------------------------------
  // Removing tags
  // ---------------------------------------------------------------------

  /** The first '>' at or after `from`. */
  function CloseAt(s: string, from: nat): (r: Option<nat>)
    requires from <= |s|
    ensures r.Some? ==> from <= r.value < |s| && s[r.value] == '>' && forall k :: from <= k < r.value ==> s[k] != '>'
    ensures r.None? ==> forall k :: from <= k < |s| ==> s[k] != '>'
    decreases |s| - from
  {
    if from == |s| then None else if s[from] == '>' then Some(from) else CloseAt(s, from + 1)
  }

  /**
   * `replacingOccurrences(of: "<[^>]+>", with: "", options: .regularExpression)`:
   * left to right, a '<' followed by at least one character other than '>'
   * and then a '>' is removed together with them.
   */
  function StripTags(s: string): string
    decreases |s|
  {
    if s == [] then []
    else if s[0] == '<' && |s| > 1 && s[1] != '>' && CloseAt(s, 1).Some? then StripTags(s[CloseAt(s, 1).value + 1..])
    else [s[0]] + StripTags(s[1..])
  }

  /** Text without '<' keeps every character. */
  lemma {:induction false} StripPlainPrefix(a: string, b: string)
    requires '<' !in a
    ensures StripTags(a + b) == a + StripTags(b)
    decreases |a|
  {
    if a != [] {
      assert (a + b)[0] == a[0] && (a + b)[1..] == a[1..] + b;
      StripPlainPrefix(a[1..], b);
    } else {
      assert a + b == b;
    }
  }

  lemma StripPlain(a: string)
    requires '<' !in a
    ensures StripTags(a) == a
  {
    StripPlainPrefix(a, []);
    assert a + [] == a;
  }

  /** A complete tag at the front disappears. */
  lemma StripTagPrefix(body: string, rest: string)
    requires body != [] && '>' !in body
    ensures StripTags("<" + body + ">" + rest) == StripTags(rest)
  {
    var s := "<" + body + ">" + rest;
    var j := |body| + 1;
    assert s[j] == '>';
    assert forall k :: 1 <= k < j ==> s[k] == body[k - 1];
    assert CloseAt(s, 1) == Some(j) by {
      CloseAtFirst(s, 1, j);
    }
    assert s[j + 1..] == rest;
  }

  lemma {:induction false} CloseAtFirst(s: string, from: nat, j: nat)
    requires from <= j < |s| && s[j] == '>' && forall k :: from <= k < j ==> s[k] != '>'
    ensures CloseAt(s, from) == Some(j)
    decreases j - from
  {
    if from < j {
      CloseAtFirst(s, from + 1, j);
    }
  }

  // ---------------------------------------------------------------------
  // The label text
  // ---------------------------------------------------------------------

  const SpanStyle: string := "span style=\"font-family: '-apple-system', "
  const SpanFont: string := "'HelveticaNeue'; font-size: "
  const SpanColor: string := "; color: "
  const SpanTail: string := "; line-height: 1.5 \""

  /** How Swift interpolates a whole-number `CGFloat`: "15.0". */
  function FloatText(n: nat): (r: string)
    ensures '>' !in r && '<' !in r
  {
    var d := DecimalText(n);
    assert forall i :: 0 <= i < |d| ==> IsAsciiDigit(d[i]);
    d + ".0"
  }

  /** The inside of the opening `<span …>` tag; `hex` is `toHexString()` of the text colour. */
  function SpanBody(size: nat, hex: string): string {
    SpanStyle + SpanFont + FloatText(size) + SpanColor + hex + SpanTail
  }

  /** The `<span …>` wrapper `prepare` puts around the text. */
  function Wrapped(body: string, size: nat, hex: string): string {
    "<" + SpanBody(size, hex) + ">" + body + "</span>"
  }

  /** The text with a heading's bold tags when it has a level. */
  function Emphasised(text: string, heading: bool): string {
    if heading then "<b>" + text + "</b>" else text
  }

  /** `label.text`: the wrapped text with every tag removed. */
  function LabelText(text: string, heading: bool, size: nat, hex: string): string {
    StripTags(Wrapped(Emphasised(text, heading), size, hex))
  }

  lemma StyleHasNoClose()
    ensures '>' !in SpanStyle
  {
  }

  lemma FontHasNoClose()
    ensures '>' !in SpanFont && '>' !in SpanColor && '>' !in SpanTail
  {
  }

  /** The opening tag's inside never holds '>' when the colour's spelling does not. */
  lemma SpanBodyHasNoClose(size: nat, hex: string)
    requires '>' !in hex
    ensures SpanBody(size, hex) != [] && '>' !in SpanBody(size, hex)
  {
    StyleHasNoClose();
    FontHasNoClose();
  }

  lemma ClosingTagsVanish()
    ensures StripTags("</b></span>") == [] && StripTags("</span>") == []
  {
    ClosingSpanVanishes();
    ClosingBoldSplits();
    StripTagPrefix("/b", "</span>");
  }

  lemma ClosingSpanVanishes()
    ensures StripTags("</span>") == []
  {
    ClosingSpanSplits();
    StripTagPrefix("/span", []);
  }

  lemma ClosingSpanSplits()
    ensures "</span>" == "<" + "/span" + ">" + [] && "/span" != [] && '>' !in "/span"
  { }

  lemma ClosingBoldSplits()
    ensures "</b></span>" == "<" + "/b" + ">" + "</span>" && "/b" != [] && '>' !in "/b"
  { }

  /** The opening span tag is removed whatever follows it. */
  lemma SpanOpenVanishes(body: string, size: nat, hex: string)
    requires '>' !in hex
    ensures StripTags(Wrapped(body, size, hex)) == StripTags(body + "</span>")
  {
    SpanBodyHasNoClose(size, hex);
    assert Wrapped(body, size, hex) == "<" + SpanBody(size, hex) + ">" + (body + "</span>");
    StripTagPrefix(SpanBody(size, hex), body + "</span>");
  }

  lemma BoldVanishes(text: string)
    requires '<' !in text
    ensures StripTags(Emphasised(text, true) + "</span>") == text
  {
    assert Emphasised(text, true) + "</span>" == "<" + "b" + ">" + (text + "</b></span>");
    StripTagPrefix("b", text + "</b></span>");
    StripPlainPrefix(text, "</b></span>");
    ClosingTagsVanish();
    assert text + [] == text;
  }

  lemma PlainKept(text: string)
    requires '<' !in text
    ensures StripTags(Emphasised(text, false) + "</span>") == text
  {
    StripPlainPrefix(text, "</span>");
    ClosingTagsVanish();
    assert text + [] == text;
  }

  /**
   * For text without '<', the label shows exactly the element's text: the
   * span wrapper and a heading's bold tags are removed again (provided the
   * colour's hex spelling has no '>').
   */
  lemma LabelTextOfPlainText(text: string, heading: bool, size: nat, hex: string)
    requires '<' !in text && '>' !in hex
    ensures LabelText(text, heading, size, hex) == text
  {
    SpanOpenVanishes(Emphasised(text, heading), size, hex);
    if heading {
      BoldVanishes(text);
    } else {
      PlainKept(text);
    }
  }

  // ---------------------------------------------------------------------
  // prepare and render
  // ---------------------------------------------------------------------

  /** The label's colours, lines and font after `prepare`. */
  function TextStyled(look: Look, attrs: Attributes): Look {
    look.(
      backgroundColor := Some(BackgroundColor(attrs).GetOr(Clear)),
      numberOfLines := 0,
      textColor := TextColor(attrs),
      wordWrapping := true,
      fontSize := EffectiveFontSize(attrs) as real,
      bold := Level(attrs).Some?)
  }

  /** The look after `prepare` has configured a label with text. */
  function Prepared(look: Look, attrs: Attributes, text: string, hexString: Color -> string): Look {
    var hex := hexString(TextColor(attrs).GetOr(Black));
    TextStyled(look, attrs).(text := Some(LabelText(text, Level(attrs).Some?, EffectiveFontSize(attrs), hex)))
  }

  /**
   * `prepare(completion:)`: the completion runs once on every path (`defer`);
   * a label without text, or a view that is not a `UILabel`, is left as it is.
   */
  method Prepare(view: View, hexString: Color -> string) returns (completions: nat)
    requires view.Valid()
    modifies view, view.Footprint()
    ensures completions == 1
    ensures view.cache.Some? && view.element == old(view.element)
    ensures view.CurrentLook() ==
      if view.viewType != LabelView || view.element.text.None? then old(view.CurrentLook())
      else Prepared(old(view.CurrentLook()), view.Attributes(), view.element.text.value, hexString)
  {
    completions := 1;
    var ui := view.GetView();
    if ui.viewType != LabelView {
      return;
    }
    if view.element.text.None? {
      return;
    }
    Configure(ui, view.element.attributes, view.element.text.value, hexString);
  }

  /** The body of `prepare` once the label and its text are known. */
  method Configure(ui: UIView, attrs: Attributes, text: string, hexString: Color -> string)
    modifies ui
    ensures ui.look == Prepared(old(ui.look), attrs, text, hexString)
  {
    ApplyTextStyle(ui, attrs);
    var shown := text;
    var fontSize := LevelFontSize(None);
    var level := Level(attrs);
    if level.Some? {
      fontSize := LevelFontSize(level);
      shown := "<b>" + text + "</b>";
    }
    var size := FontSize(attrs).GetOr(fontSize);
    shown := Wrapped(shown, size, hexString(TextColor(attrs).GetOr(Black)));
    ui.look := ui.look.(text := Some(StripTags(shown)));
  }

  /** The colour, line and font lines of `prepare`. */
  method ApplyTextStyle(ui: UIView, attrs: Attributes)
    modifies ui
    ensures ui.look == TextStyled(old(ui.look), attrs)
  {
    ui.look := ui.look.(backgroundColor := Some(BackgroundColor(attrs).GetOr(Clear)));
    ui.look := ui.look.(numberOfLines := 0, textColor := TextColor(attrs), wordWrapping := true);
    var fontSize := LevelFontSize(None);
    var level := Level(attrs);
    if level.Some? {
      fontSize := LevelFontSize(level);
    }
    ui.look := ui.look.(fontSize := FontSize(attrs).GetOr(fontSize) as real, bold := level.Some?);
  }

  /** The `textAlignment` the parent's `align` selects; other values keep the current one. */
  function AlignmentFor(align: Option<string>, current: TextAlignment): TextAlignment {
    match align
    case None => current
    case Some(a) => if a == "left" then AlignLeft else if a == "center" then AlignCenter else if a == "right" then AlignRight else current
  }

  function LabelRendered(look: Look, parentAttrs: Attributes, f: Frame): Look {
    look.(textAlignment := AlignmentFor(Align(parentAttrs), look.textAlignment),
          translatesMask := false,
          constraints := look.constraints + BlockAnchors(f))
  }

  /** `render(parent:previousSibling:last:)`: the parent's alignment, then the block's constraints. */
  method Render(view: View, parent: View, previousSibling: Option<View>, last: bool)
    requires view.Valid()
    modifies view, view.Footprint()
    ensures view.cache.Some? && view.element == old(view.element)
    ensures view.CurrentLook() ==
      if view.viewType != LabelView then old(view.CurrentLook())
      else LabelRendered(old(view.CurrentLook()), old(parent.Attributes()), old(FrameFor(view, parent, previousSibling, last)))
  {
    var f := FrameFor(view, parent, previousSibling, last);
    var align := Align(parent.element.attributes);
    var ui := view.GetView();
    if ui.viewType != LabelView {
      return;
    }
    ui.look := ui.look.(textAlignment := AlignmentFor(align, ui.look.textAlignment));
    ui.look := ui.look.(translatesMask := false);
    Block.ActivateBlockAnchors(ui, f);
  }

  /** Only "left", "center" and "right" change the alignment, each to its own value. */
  lemma AlignmentRules(align: Option<string>, current: TextAlignment)
    ensures align == Some("left") ==> AlignmentFor(align, current) == AlignLeft
    ensures align == Some("center") ==> AlignmentFor(align, current) == AlignCenter
    ensures align == Some("right") ==> AlignmentFor(align, current) == AlignRight
    ensures align.None? || align.value !in {"left", "center", "right"} ==> AlignmentFor(align, current) == current
  {
  }
}
