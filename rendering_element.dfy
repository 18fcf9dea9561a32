/**
 * `AcceleraRenderingElement`: the typed style values a view reads from its
 * element's attribute map. Every resolver is a function of the map alone.
 * Lengths are the integers spelled by the attribute's digits.
 */
module RenderingElement {
  import opened Wrappers
  import opened SwiftText
  import opened StringExt
  import opened CollectionExt

  type Attributes = map<string, string>

  /** `UIColor(hex:)` of the given spelling, or one of the named colours the views use; the colour conversion itself is not modelled. */
  datatype Color = Hex(code: string) | Clear | White | Black

  /** `UIEdgeInsets`, in the order of its initialiser. */
  datatype Insets = Insets(top: int, left: int, bottom: int, right: int)

  const Zero: Insets := Insets(0, 0, 0, 0)

  /** The `border` shorthand: size, line type and colour. */
  datatype Border = Border(size: int, kind: string, color: Color)

  function GetAttribute(attrs: Attributes, name: string): (r: Option<string>)
    ensures r.Some? <==> name in attrs
    ensures r.Some? ==> r.value == attrs[name]
  {
    if name in attrs then Some(attrs[name]) else None
  }

  // ---------------------------------------------------------------------
  // Numbers made of the attribute's digits
  // ---------------------------------------------------------------------

  /**
   * `width`, `height`, `fontSize` and `borderRadius`: the digits of the
   * attribute, read as a number; absent when the attribute is missing or
   * has no digit.
   */
  function Number(attrs: Attributes, name: string): Option<nat> {
    if name !in attrs then None
    else
      var str := Digits(attrs[name]);
      if str == [] then None else Some(DecimalValue(str))
  }

  function Width(attrs: Attributes): Option<nat> { Number(attrs, "width") }
  function Height(attrs: Attributes): Option<nat> { Number(attrs, "height") }
  function FontSize(attrs: Attributes): Option<nat> { Number(attrs, "font-size") }
  function BorderRadius(attrs: Attributes): Option<nat> { Number(attrs, "border-radius") }

  /** A number attribute is absent exactly when it is missing or digit-free, and is otherwise the value of its digits in order. */
  lemma NumberSpec(attrs: Attributes, name: string)
    ensures Number(attrs, name).None? <==>
      name !in attrs || forall i :: 0 <= i < |attrs[name]| ==> !IsDecimalDigit(attrs[name][i])
    ensures Number(attrs, name).Some? ==> Number(attrs, name).value == DecimalValue(KeepDigits(attrs[name]))
  {
    if name in attrs {
      DigitsEmpty(attrs[name]);
      DigitsKeepsDigitsInOrder(attrs[name]);
    }
  }

  lemma KeepDigitsOfAllDigits(s: string)
    requires AllAsciiDigits(s)
    ensures KeepDigits(s) == s
  {
    DigitsOfDigitString(s);
    DigitsKeepsDigitsInOrder(s);
  }

  predicate NoDigits(s: string) {
    forall i :: 0 <= i < |s| ==> !IsDecimalDigit(s[i])
  }

  lemma KeepDigitsOfNoDigits(s: string)
    requires NoDigits(s)
    ensures KeepDigits(s) == []
  {
    DigitsEmpty(s);
    DigitsKeepsDigitsInOrder(s);
  }

  /** Digits interleaved with digit-free text keep only the digits. */
  lemma KeepDigitsOfDecimal(whole: string, point: string, fraction: string, unit: string)
    requires AllAsciiDigits(whole) && AllAsciiDigits(fraction) && NoDigits(point) && NoDigits(unit)
    ensures KeepDigits(whole + point + fraction + unit) == whole + fraction
  {
    var front, back := whole + point, fraction + unit;
    assert whole + point + fraction + unit == front + back;
    KeepDigitsPair(whole, point);
    KeepDigitsPair(fraction, unit);
    KeepDigitsAppend(front, back);
  }

  lemma KeepDigitsPair(digits: string, other: string)
    requires AllAsciiDigits(digits) && NoDigits(other)
    ensures KeepDigits(digits + other) == digits
  {
    KeepDigitsAppend(digits, other);
    KeepDigitsOfAllDigits(digits);
    KeepDigitsOfNoDigits(other);
    assert digits + [] == digits;
  }

  /** "12.5px" gives 125: the point and the unit are dropped, not read as a fraction and a unit. */
  lemma WidthOfDecimalWithUnit(whole: string, fraction: string)
    requires AllAsciiDigits(whole) && AllAsciiDigits(fraction) && whole + fraction != []
    ensures Width(map["width" := whole + "." + fraction + "px"]) == Some(DecimalValue(whole + fraction))
  {
    PointAndUnitHaveNoDigits();
    WidthOfDigitsAround(whole, ".", fraction, "px");
  }

  lemma PointAndUnitHaveNoDigits()
    ensures NoDigits(".") && NoDigits("px")
  {
  }

  /** Digit-free separators and units between and after the digits do not count. */
  lemma WidthOfDigitsAround(whole: string, point: string, fraction: string, unit: string)
    requires AllAsciiDigits(whole) && AllAsciiDigits(fraction) && NoDigits(point) && NoDigits(unit) && whole + fraction != []
    ensures Width(map["width" := whole + point + fraction + unit]) == Some(DecimalValue(whole + fraction))
  {
    var v := whole + point + fraction + unit;
    KeepDigitsOfDecimal(whole, point, fraction, unit);
    if NoDigits(v) {
      KeepDigitsOfNoDigits(v);
    }
    NumberSpec(map["width" := v], "width");
  }

  /**
   * `level`: the digits of the attribute as a Swift `Int`; absent when the
   * attribute is missing, has no digit, or its digits overflow 64 bits.
   */
  function Level(attrs: Attributes): Option<int> {
    if "level" !in attrs then None
    else
      var l := Digits(attrs["level"]);
      if l == [] then None else IntInit(l)
  }

  lemma LevelSpec(attrs: Attributes)
    ensures Level(attrs).Some? <==> "level" in attrs && KeepDigits(attrs["level"]) != [] && DecimalValue(KeepDigits(attrs["level"])) <= IntMax
    ensures Level(attrs).Some? ==> Level(attrs).value == DecimalValue(KeepDigits(attrs["level"]))
  {
    if "level" in attrs {
      DigitsKeepsDigitsInOrder(attrs["level"]);
      if KeepDigits(attrs["level"]) != [] {
        IntInitDigits(KeepDigits(attrs["level"]));
      }
    }
  }

  // ---------------------------------------------------------------------
  // Strings that count only when non-empty
  // ---------------------------------------------------------------------

  /** `align` and `href`: the raw value when present and non-empty. */
  function NonEmptyValue(attrs: Attributes, name: string): (r: Option<string>)
    ensures r.Some? <==> name in attrs && attrs[name] != []
    ensures r.Some? ==> r.value == attrs[name]
  {
    if name in attrs && attrs[name] != [] then Some(attrs[name]) else None
  }

  function Align(attrs: Attributes): Option<string> { NonEmptyValue(attrs, "align") }
  function Href(attrs: Attributes): Option<string> { NonEmptyValue(attrs, "href") }

  /** `color` and `backgroundColor`: `UIColor(hex:)` of a present, non-empty value. */
  function ColorOf(attrs: Attributes, name: string): (r: Option<Color>)
    ensures r.Some? <==> name in attrs && attrs[name] != []
    ensures r.Some? ==> r.value == Hex(attrs[name])
  {
    match NonEmptyValue(attrs, name)
    case None => None
    case Some(c) => Some(Hex(c))
  }

  function TextColor(attrs: Attributes): Option<Color> { ColorOf(attrs, "color") }
  function BackgroundColor(attrs: Attributes): Option<Color> { ColorOf(attrs, "background-color") }

  // ---------------------------------------------------------------------
  // Margin and padding shorthand
  // ---------------------------------------------------------------------

  /** `Int($0.digits) ?? 0`: one token of the shorthand. */
  function TokenValue(token: string): int {
    IntInit(Digits(token)).GetOr(0)
  }

  /** A token is the value of its digits, or 0 when it has none or they overflow; never negative. */
  lemma TokenValueSpec(token: string)
    ensures TokenValue(token) ==
      if KeepDigits(token) != [] && DecimalValue(KeepDigits(token)) <= IntMax then DecimalValue(KeepDigits(token)) else 0
    ensures TokenValue(token) >= 0
  {
    DigitsKeepsDigitsInOrder(token);
    if KeepDigits(token) != [] {
      IntInitDigits(KeepDigits(token));
    }
  }

  function TokenValues(tokens: seq<string>): (r: seq<int>)
    ensures |r| == |tokens|
    ensures forall k :: 0 <= k < |r| ==> r[k] == TokenValue(tokens[k])
  {
    if tokens == [] then [] else [TokenValue(tokens[0])] + TokenValues(tokens[1..])
  }

  /** The CSS fallbacks: right from top, bottom from top, left from right. */
  function Shorthand(values: seq<int>): Insets {
    var top := SafeAt(values, 0).GetOr(0);
    var right := SafeAt(values, 1).GetOr(top);
    var bottom := SafeAt(values, 2).GetOr(top);
    var left := SafeAt(values, 3).GetOr(right);
    Insets(top, left, bottom, right)
  }

  /** One, two, three or four values fill the insets as in CSS; values after the fourth are ignored. */
  lemma ShorthandFallbacks(values: seq<int>)
    requires |values| >= 1
    ensures |values| == 1 ==> Shorthand(values) == Insets(values[0], values[0], values[0], values[0])
    ensures |values| == 2 ==> Shorthand(values) == Insets(values[0], values[1], values[0], values[1])
    ensures |values| == 3 ==> Shorthand(values) == Insets(values[0], values[1], values[2], values[1])
    ensures |values| >= 4 ==> Shorthand(values) == Insets(values[0], values[3], values[2], values[1])
    ensures Shorthand(values) == Shorthand(values[..if |values| < 4 then |values| else 4])
  {
  }

  /** `margin` and `padding`: nil when missing, zero when empty, otherwise the shorthand of the space-separated tokens. */
  function EdgeInsets(attrs: Attributes, name: string): Option<Insets> {
    if name !in attrs then None
    else if attrs[name] == [] then Some(Zero)
    else Some(Shorthand(TokenValues(Components(attrs[name], ' '))))
  }

  function Margin(attrs: Attributes): Option<Insets> { EdgeInsets(attrs, "margin") }
  function Padding(attrs: Attributes): Option<Insets> { EdgeInsets(attrs, "padding") }

  /** A missing shorthand and an empty one differ: only the empty one is zero insets. */
  lemma MissingAndEmptyInsets(attrs: Attributes, name: string)
    ensures name !in attrs ==> EdgeInsets(attrs, name).None?
    ensures name in attrs && attrs[name] == [] ==> EdgeInsets(attrs, name) == Some(Zero)
    ensures name in attrs ==> EdgeInsets(attrs, name).Some?
  {
  }

  /** Every side of a present shorthand is a token value, so none is negative. */
  lemma {:induction false} InsetsNonNegative(attrs: Attributes, name: string)
    requires EdgeInsets(attrs, name).Some?
    ensures var i := EdgeInsets(attrs, name).value; i.top >= 0 && i.left >= 0 && i.bottom >= 0 && i.right >= 0
  {
    if attrs[name] != [] {
      var tokens := Components(attrs[name], ' ');
      var values := TokenValues(tokens);
      forall k | 0 <= k < |values| ensures values[k] >= 0 {
        TokenValueSpec(tokens[k]);
      }
    }
  }

  /** A token of digits only is its decimal value. */
  lemma TokenOfDigits(token: string)
    requires token != [] && AllAsciiDigits(token) && DecimalValue(token) <= IntMax
    ensures TokenValue(token) == DecimalValue(token)
  {
    DigitsOfDigitString(token);
    IntInitDigits(token);
  }

  /** A word without the separator is a single component. */
  lemma {:induction false} ComponentsOfWord(w: string, sep: char)
    requires sep !in w
    ensures Components(w, sep) == [w]
    decreases |w|
  {
    if w != [] {
      ComponentsOfWord(w[1..], sep);
      ComponentsCons(w, sep);
      assert [w[0]] + w[1..] == w;
    }
  }

  /** The components of `a sep b` are those of `a` followed by those of `b`. */
  lemma {:induction false} ComponentsAround(a: string, b: string, sep: char)
    ensures Components(a + [sep] + b, sep) == Components(a, sep) + Components(b, sep)
    decreases |a|
  {
    var s := a + [sep] + b;
    var cb := Components(b, sep);
    if a == [] {
      assert s == [sep] + b && s[1..] == b;
      ComponentsCons(s, sep);
      assert Components(a, sep) == [[]];
    } else {
      ComponentsAround(a[1..], b, sep);
      var ca := Components(a[1..], sep);
      var x := ca + cb;
      assert s[0] == a[0] && s[1..] == a[1..] + [sep] + b;
      assert Components(s[1..], sep) == x;
      ComponentsCons(s, sep);
      ComponentsCons(a, sep);
      if a[0] == sep {
        assert Components(s, sep) == [[]] + x;
        assert Components(a, sep) == [[]] + ca;
      } else {
        assert |ca| >= 1;
        GrowFirstPiece(a[0], ca, cb);
      }
    }
  }

  lemma GrowFirstPiece(c: char, x: seq<string>, y: seq<string>)
    requires |x| >= 1
    ensures [[c] + (x + y)[0]] + (x + y)[1..] == ([[c] + x[0]] + x[1..]) + y
  {
    assert (x + y)[0] == x[0] && (x + y)[1..] == x[1..] + y;
  }

  /** Two words without the separator, joined by one separator, split back into those words. */
  lemma TwoWords(a: string, b: string)
    requires ' ' !in a && ' ' !in b
    ensures Components(a + " " + b, ' ') == [a, b]
  {
    ComponentsOfWord(a, ' ');
    ComponentsOfWord(b, ' ');
    ComponentsAround(a, b, ' ');
    assert a + " " + b == a + [' '] + b;
  }

  lemma ThreeWords(a: string, b: string, c: string)
    requires ' ' !in a && ' ' !in b && ' ' !in c
    ensures Components(a + " " + b + " " + c, ' ') == [a, b, c]
  {
    TwoWords(b, c);
    ComponentsOfWord(a, ' ');
    assert b + " " + c == b + [' '] + c;
    assert a + " " + b + " " + c == a + [' '] + (b + " " + c);
    ComponentsAround(a, b + " " + c, ' ');
  }

  /** Two separators in a row leave an empty word between them. */
  lemma DoubledSeparator(a: string, b: string)
    requires ' ' !in a && ' ' !in b
    ensures Components(a + "  " + b, ' ') == [a, [], b]
  {
    TwoWords([], b);
    ComponentsOfWord(a, ' ');
    assert [] + " " + b == [' '] + b;
    assert a + "  " + b == a + [' '] + ([] + " " + b);
    ComponentsAround(a, [] + " " + b, ' ');
  }

  predicate Numeral(w: string) {
    w != [] && AllAsciiDigits(w) && DecimalValue(w) <= IntMax
  }

  lemma NumeralHasNoSpace(w: string)
    requires Numeral(w)
    ensures ' ' !in w
  {
    forall i | 0 <= i < |w| ensures w[i] != ' ' {
      assert IsAsciiDigit(w[i]);
    }
  }

  /** Two numbers: the first is top and bottom, the second left and right ("10 20" is 10/20/10/20). */
  lemma MarginTwoValues(a: string, b: string)
    requires Numeral(a) && Numeral(b)
    ensures Margin(map["margin" := a + " " + b]) ==
      Some(Insets(DecimalValue(a), DecimalValue(b), DecimalValue(a), DecimalValue(b)))
  {
    NumeralHasNoSpace(a);
    NumeralHasNoSpace(b);
    TwoWords(a, b);
    TokenOfDigits(a);
    TokenOfDigits(b);
    assert TokenValues([a, b]) == [DecimalValue(a), DecimalValue(b)];
  }

  /** Three numbers: top, then left and right, then bottom ("10 20 30" is 10/20/30/20). */
  lemma MarginThreeValues(a: string, b: string, c: string)
    requires Numeral(a) && Numeral(b) && Numeral(c)
    ensures Margin(map["margin" := a + " " + b + " " + c]) ==
      Some(Insets(DecimalValue(a), DecimalValue(b), DecimalValue(c), DecimalValue(b)))
  {
    NumeralHasNoSpace(a);
    NumeralHasNoSpace(b);
    NumeralHasNoSpace(c);
    ThreeWords(a, b, c);
    TokenOfDigits(a);
    TokenOfDigits(b);
    TokenOfDigits(c);
    assert TokenValues([a, b, c]) == [DecimalValue(a), DecimalValue(b), DecimalValue(c)];
  }

  /** The split is on single spaces: a doubled space makes an empty token, which counts as 0. */
  lemma MarginDoubledSpace(a: string, b: string)
    requires Numeral(a) && Numeral(b)
    ensures Margin(map["margin" := a + "  " + b]) == Some(Insets(DecimalValue(a), 0, DecimalValue(b), 0))
  {
    NumeralHasNoSpace(a);
    NumeralHasNoSpace(b);
    DoubledSeparator(a, b);
    TokenOfDigits(a);
    TokenOfDigits(b);
    DigitsEmpty([]);
    assert TokenValues([a, [], b]) == [DecimalValue(a), 0, DecimalValue(b)];
  }

  // ---------------------------------------------------------------------
  // Border
  // ---------------------------------------------------------------------

  /**
   * `border`: nil when missing or empty; otherwise the space-separated words
   * (empty words dropped), which must be exactly three: size, type, colour.
   */
  function BorderOf(attrs: Attributes): Option<Border> {
    if "border" !in attrs || attrs["border"] == [] then None
    else
      var params := SplitNonEmpty(attrs["border"], ' ');
      if |params| != 3 then None
      else Some(Border(TokenValue(params[0]), params[1], Hex(params[2])))
  }

  /**
   * A border is found exactly when the value has three words; its parts are
   * those words in order, which together spell the value without spaces.
   */
  lemma BorderSpec(attrs: Attributes)
    ensures BorderOf(attrs).Some? <==> "border" in attrs && |SplitNonEmpty(attrs["border"], ' ')| == 3
    ensures BorderOf(attrs).Some? ==>
      var words := SplitNonEmpty(attrs["border"], ' ');
      var b := BorderOf(attrs).value;
      b.kind == words[1] && b.color == Hex(words[2])
      && words[0] + b.kind + b.color.code == Without(attrs["border"], ' ')
      && b.kind != [] && ' ' !in b.kind && b.color.code != [] && ' ' !in b.color.code
      && b.size == TokenValue(words[0]) && b.size >= 0
  {
    if "border" in attrs {
      var words := SplitNonEmpty(attrs["border"], ' ');
      SplitNonEmptyPieces(attrs["border"], ' ');
      if attrs["border"] == [] {
        EmptySplitsToNothing(' ');
      }
      if |words| == 3 {
        TokenValueSpec(words[0]);
        ConcatOfThree(words);
      }
    }
  }

  lemma EmptySplitsToNothing(sep: char)
    ensures SplitNonEmpty([], sep) == []
  {
    assert Components([], sep) == [[]];
    assert NonEmpty([[]]) == NonEmpty([]) == [];
  }

  lemma ConcatOfThree(words: seq<string>)
    requires |words| == 3
    ensures Concat(words) == words[0] + words[1] + words[2]
  {
    assert words[1..][1..] == words[2..];
    assert words[2..][1..] == [];
    assert Concat(words[2..]) == words[2];
    assert Concat(words[1..]) == words[1] + words[2];
  }
}
