# Accelera banner pipeline in Dafny

This project models the banner-markup pipeline of the Accelera iOS SDK and
proves properties of that model. The pipeline runs in these stages:

1. Banner markup (an HTML-like XML dialect with tags such as `re-block`,
   `re-text` and `re-button`) is parsed into a tree of `Element`s. Inline
   tags (`<b>`, `<br>`, …) are hidden behind `!@#tag!@#` sentinels while the
   XML parser runs and restored inside character data.
2. Typed style values are resolved from an element's string attributes:
   width, height, font size, corner radius, level, margin and padding
   shorthand, border, alignment, link and colours.
3. The banner view controller walks the element tree:
   - it maps tags to view kinds;
   - it flattens unknown wrapper tags away, attaching each recognised view
     to its nearest recognised ancestor;
   - it picks the top view and counts every element in and out of a group;
   - it renders the views parent first, each against its previous sibling,
     with a `last` flag.
4. Each view kind (block, spacer, label, image, button) prepares its UIKit
   view and compiles its placement into an ordered list of layout-anchor
   relationships. The banner view installs itself per banner type, finds
   its background on the first-child chain and adds a close button.
5. Small helpers complete the core: `String.digits`, `removeExtraSpaces`,
   safe indexing, `elementBeforeLast`, the banner-type raw values, and the
   error-description tables of the parser and the network layer.

## Modules

Each module, its file, and what it holds:

| module | file | contents |
|---|---|---|
| `Wrappers` | `wrappers.dfy` | `Option` |
| `SwiftText` | `swift_text.dfy` | the Foundation string operations the source relies on: trimming, `components(separatedBy:)`, `split`, `replacingOccurrences`, `Int(_:)` |
| `StringExt` | `string_ext.dfy` | `digits`, `removeExtraSpaces` |
| `CollectionExt` | `collection_ext.dfy` | `subscript(safe:)`, `elementBeforeLast` |
| `ElementTree` | `element.dfy` | the element tree as a value (`Node`), the `Element` class and its pre-order `description` |
| `HTMLParserErrors` | `html_parser_error.dfy` | the parser's error enum and descriptions |
| `HTMLTags` | `html_tags.dfy` | the inline-tag substitution and its restoration, as written and as corrected |
| `HTMLParsing` | `html_parser.dfy` | the tree builder:<br>a value-level state machine (`Step`/`Run`) and the `HTMLParser` class whose delegate handlers follow it |
| `RenderingElement` | `rendering_element.dfy` | every attribute resolver |
| `Layout` | `layout.dfy` | the layout-anchor datatype and the relationship lists each view kind emits |
| `Views` | `views.dfy` | `AcceleraAbstractView` and the UIKit view it caches |
| `Block` | `block.dfy` | `AcceleraBlock` and `AcceleraSpacer` |
| `Label` | `label.dfy` | `AcceleraLabel` |
| `ImageViewKind` | `image_view.dfy` | `AcceleraImageView` |
| `Button` | `button.dfy` | `AcceleraButton` |
| `ViewTree` | `view_tree.dfy` | the controller's view tree and the `before(_:)` lookup |
| `BannerViews` | `banner_view.dfy` | `AcceleraBannerView` |
| `BannerPlan` | `banner_plan.dfy` | the tag mapping, the flattening of the element tree into views, and the render plan |
| `BannerController` | `banner_controller.dfy` | `AcceleraBannerViewController` |
| `Config` | `config.dfy` | the banner-type enum and `AcceleraConfig` |
| `NetworkErrors` | `network_error.dfy` | `NetworkError` |

### How state is modelled

- Each stateful operation is a method on a class (the parser, the element,
  the abstract view, the banner view, the controller). Its `ensures`
  relates the new state to a pure function of the old state.
- Lemmas about those functions prove the promised properties.
- Parser events, UTF-8 encoding, URL validity, image loading,
  colour-to-hex conversion and `isLight` are parameters.

## Model

| member | source | states |
|---|---|---|
| `StringExt.Digits` | Accelera/extensions/String+.swift:11-13 | the result consists of ASCII decimal digits only |
| `StringExt.DigitsKeepsDigitsInOrder` | Accelera/extensions/String+.swift:11-13 | `digits` equals the digit-only filter of the input: every digit is kept in order and every other character is dropped |
| `StringExt.KeepDigitsAppend` | Accelera/extensions/String+.swift:11-13 | filtering digits distributes over concatenation |
| `StringExt.DigitsOfDigitString` | Accelera/extensions/String+.swift:11-13 | a string made only of digits is returned unchanged |
| `StringExt.DigitsIdempotent` | Accelera/extensions/String+.swift:11-13 | applying `digits` twice equals applying it once |
| `StringExt.DigitsEmpty` | Accelera/extensions/String+.swift:12 | `digits` is empty exactly when the input has no decimal digit |
| `StringExt.RemoveExtraSpacesHead` | Accelera/extensions/String+.swift:15-17 | a leading non-space character is kept in first position |
| `StringExt.RemoveExtraSpacesShape` | Accelera/extensions/String+.swift:15-17 | the output has no two adjacent whitespace characters, and every whitespace character left is a single space |
| `StringExt.NonSpaceOfSpaces` | Accelera/extensions/String+.swift:15-17 | a leading run of whitespace contributes no non-space characters |
| `StringExt.RemoveExtraSpacesKeepsText` | Accelera/extensions/String+.swift:15-17 | the non-whitespace characters are kept, in order, and nothing else is added |
| `StringExt.RemoveExtraSpacesIdempotent` | Accelera/extensions/String+.swift:15-17 | applying `removeExtraSpaces` twice equals applying it once |
| `StringExt.RemoveExtraSpacesNoSpace` | Accelera/extensions/String+.swift:15-17 | a string without whitespace is unchanged |
| `StringExt.RemoveExtraSpaces` | Accelera/extensions/String+.swift:15-17 | `removeExtraSpaces`: every run of whitespace becomes one space; pinned by `RemoveExtraSpacesIsCollapseRuns`, `RemoveExtraSpacesShape` and `RemoveExtraSpacesKeepsText` |
| `StringExt.CollapseRuns` | Accelera/extensions/String+.swift:15-17 | an independent definition of the collapse, character by character: a space is emitted only at the end of a whitespace run |
| `StringExt.RemoveExtraSpacesIsCollapseRuns` | Accelera/extensions/String+.swift:15-17 | `removeExtraSpaces` equals the run-by-run collapse on every input |
| `StringExt.RemoveExtraSpacesCollapse` | Accelera/extensions/String+.swift:15-17 | a whitespace run between two words becomes exactly one space and each side is collapsed on its own |
| `CollectionExt.SafeAt` | Accelera/extensions/Collection+.swift:12-14 | an element exactly for a valid index, including no element for negative ones, and then the element at that index |
| `CollectionExt.ElementBeforeLast` | Accelera/extensions/Collection+.swift:16-18 | nil exactly when there are fewer than two elements, otherwise the element at position count−2 |
| `SwiftText.DropPrefixWhere` | Accelera/parser/HTMLParser.swift:80-84 | the result is a suffix of the input that starts with a kept character, and everything dropped satisfies the predicate |
| `SwiftText.DropSuffixWhere` | Accelera/parser/HTMLParser.swift:80-84 | the result is a prefix of the input that ends with a kept character, and everything dropped satisfies the predicate |
| `SwiftText.TrimEnds` | Accelera/parser/HTMLParser.swift:80-84 | a trimmed string is empty or starts and ends with kept characters |
| `SwiftText.TrimEmpty` | Accelera/parser/HTMLParser.swift:69-72 | trimming gives the empty string exactly when every character is trimmable (the parser's blank-chunk test) |
| `SwiftText.TrimNoOp` | Accelera/parser/HTMLParser.swift:80-84 | trimming a string whose ends are kept characters changes nothing |
| `SwiftText.ComponentsWhere` | Accelera/view/views/AcceleraRenderingElement.swift:65 | `components(separatedBy:)` gives at least one piece, and no piece holds a separator |
| `SwiftText.ComponentsCons` | Accelera/view/views/AcceleraRenderingElement.swift:65 | a leading separator starts a new empty piece; any other leading character joins the first piece |
| `SwiftText.JoinComponents` | Accelera/view/views/AcceleraRenderingElement.swift:65 | joining the pieces with the separator gives back the input |
| `SwiftText.ConcatComponents` | Accelera/extensions/String+.swift:12 | concatenating the pieces gives the input without its separators |
| `SwiftText.ConcatNonEmpty` | Accelera/view/views/AcceleraRenderingElement.swift:143 | dropping empty pieces does not change their concatenation |
| `SwiftText.SplitNonEmptyPieces` | Accelera/view/views/AcceleraRenderingElement.swift:143 | `split(separator:)` yields non-empty, separator-free pieces that spell the input without separators |
| `SwiftText.NonEmpty` | Accelera/view/views/AcceleraRenderingElement.swift:143 | every piece kept is non-empty |
| `SwiftText.NonEmptyKeeps` | Accelera/view/views/AcceleraRenderingElement.swift:143 | dropping empty pieces keeps pieces separator-free |
| `SwiftText.ReplaceAllAbsentChar` | Accelera/parser/HTMLParser.swift:28-30 | replacing a pattern that has a character absent from the input changes nothing |
| `SwiftText.ReplaceAllSkip` | Accelera/parser/HTMLParser.swift:28-30 | a prefix without the pattern's first character is kept as it is |
| `SwiftText.DecimalText` | Accelera/view/views/AcceleraLabel.swift:59 | the decimal text of a number is a non-empty digit string |
| `SwiftText.DecimalRoundTrip` | Accelera/view/views/AcceleraLabel.swift:59 | reading the decimal text of a number gives the number back |
| `SwiftText.IntInit` | Accelera/view/views/AcceleraRenderingElement.swift:117 | `Int(_:)` gives a value only within the 64-bit range |
| `SwiftText.IntInitDigits` | Accelera/view/views/AcceleraRenderingElement.swift:117 | on a digit string, `Int(_:)` is its decimal value when that fits in 64 bits and nil otherwise |
| `ElementTree.Element.constructor` | Accelera/parser/Element.swift:11-19 | a new element has the given name and attributes, no children and nil text |
| `ElementTree.Element.AppendChild` | Accelera/parser/HTMLParser.swift:95 | `children.append`: the child is added last and nothing else changes |
| `ElementTree.Element.SetText` | Accelera/parser/HTMLParser.swift:80-84 | the text is set and nothing else changes |
| `ElementTree.Element.Describe` | Accelera/parser/Element.swift:23-37 | the accumulating loop yields the element tree's `Description` |
| `ElementTree.LinesAppend` | Accelera/parser/Element.swift:31-34 | the dump of two node lists is the dump of the first followed by the second |
| `ElementTree.DescriptionIsPreOrderDump` | Accelera/parser/Element.swift:23-37 | a description is the node's line followed by its children's descriptions in order, that is the lines of the pre-order traversal |
| `ElementTree.DescribeAllIsPreOrderDump` | Accelera/parser/Element.swift:32-34 | the same for a list of children |
| `ElementTree.DescriptionStartsWithName` | Accelera/parser/Element.swift:24 | the description starts with the element's name |
| `ElementTree.TextSegmentIffText` | Accelera/parser/Element.swift:25-27 | `", text: "` follows the name exactly when the text is non-nil |
| `ElementTree.AttributesSegmentIffAttributes` | Accelera/parser/Element.swift:28-30 | the attributes segment appears exactly when the attribute map is non-empty |
| `ElementTree.BareLeafDescription` | Accelera/parser/Element.swift:24-36 | a leaf with no text and no attributes describes as its name and a newline |
| `HTMLParserErrors.ErrorDescription` | Accelera/parser/HTMLParserError.swift:18-27 | the three cases describe as "Provided html is not valid", "Provided html is empty" and "Something went wrong" |
| `HTMLParserErrors.DescriptionsDistinct` | Accelera/parser/HTMLParserError.swift:11-27 | two errors have the same description exactly when they are the same case |
| `HTMLTags.RestoreSubstitute` | Accelera/parser/HTMLParser.swift:22-30 | restoring a substituted text gives the original back, for any text that holds no `!@#` marker |
| `HTMLTags.RestoreUndoesSubstitute` | Accelera/parser/HTMLParser.swift:75-78 | the same for any list of plain tags |
| `HTMLTags.RestoreWithoutMarker` | Accelera/parser/HTMLParser.swift:75-78 | restoring a text without a marker changes nothing |
| `HTMLTags.RoundTripAtTag` | Accelera/parser/HTMLParser.swift:28-30 | a tag at the front is substituted and then restored |
| `HTMLTags.RoundTripAtChar` | Accelera/parser/HTMLParser.swift:28-30 | a plain character at the front is kept by both passes |
| `HTMLTags.RestoreSentinel` | Accelera/parser/HTMLParser.swift:75-78 | a sentinel at the front is restored to its tag |
| `HTMLTags.PatternUnique` | Accelera/parser/HTMLParser.swift:22 | no two of the tags match at the same place |
| `HTMLTags.FirstMatch` | Accelera/parser/HTMLParser.swift:22 | a match found is one of the tags and its pattern starts the text |
| `HTMLTags.FirstMatchNone` | Accelera/parser/HTMLParser.swift:22 | when nothing matches, no tag's pattern starts the text |
| `HTMLTags.TagsArePlain` | Accelera/parser/HTMLParser.swift:22 | the nine tags are plain: none holds `!` or `>` |
| `HTMLTags.SubstituteAsWrittenBoldBr` | Accelera/parser/HTMLParser.swift:28-30 | as written, `<b>br</b>` is substituted to `!@#b!@#br!@#/b!@#` |
| `HTMLTags.RestoreAsWrittenBoldBr` | Accelera/parser/HTMLParser.swift:75-78 | as written, that text is restored to `!@#b<br>/b!@#` |
| `HTMLTags.RestoreAsWrittenBreaksBoldBr` | Accelera/parser/HTMLParser.swift:75-78 | the as-written round trip does not give `<b>br</b>` back |
| `HTMLTags.SubstituteTagsAsWritten` | Accelera/parser/HTMLParser.swift:28-30 | the substitution loop as written, each tag in turn over the whole text; pinned by `SubstituteAsWrittenBoldBr` |
| `HTMLTags.RestoreTagsAsWritten` | Accelera/parser/HTMLParser.swift:75-78 | the restore loop as written, each tag in turn over the whole text; pinned by `RestoreAsWrittenBoldBr` and `RestoreAsWrittenWithoutMarker` |
| `HTMLTags.RestoreAsWrittenWithoutMarker` | Accelera/parser/HTMLParser.swift:75-78 | the restore loop as written leaves a text without a `!@#` marker unchanged |
| `HTMLTags.SubstituteTags` | Accelera/parser/HTMLParser.swift:28-30 | the corrected substitution, one left-to-right pass; pinned by `RestoreSubstitute` |
| `HTMLTags.RestoreTags` | Accelera/parser/HTMLParser.swift:75-78 | the corrected restoration, one left-to-right pass; pinned by `RestoreSubstitute` and `RestoreWithoutMarker` |
| `HTMLParsing.StoredTextUnchanged` | Accelera/parser/HTMLParser.swift:75-84 | text that is already trimmed and holds no tag or marker is stored as it is, through the restore loop as written |
| `HTMLParsing.StepDepth` | Accelera/parser/HTMLParser.swift:60-98 | a start deepens the stack by one, an end pops one, and every other event keeps the depth |
| `HTMLParsing.Step` | Accelera/parser/HTMLParser.swift:60-114 | the delegate handlers as one state-machine step over the element stack, the root and the results; pinned by `StepDepth`, `StepCoherent`, `RunSerialize` and `ParseRoundTrip` |
| `HTMLParsing.Run` | Accelera/parser/HTMLParser.swift:40-49 | the events delivered by `XMLParser.parse()` in order; pinned by `RunSerialize` and `ParseRoundTrip` |
| `HTMLParsing.AddText` | Accelera/parser/HTMLParser.swift:75-84 | a chunk goes through the restore loop as written, is trimmed, and becomes or extends the element's text; pinned by `StoredTextUnchanged` |
| `HTMLParsing.StepCoherent` | Accelera/parser/HTMLParser.swift:60-65 | the root, once started, is never replaced or forgotten |
| `HTMLParsing.ClosedRootStays` | Accelera/parser/HTMLParser.swift:62-64 | a closed root is never replaced, whatever events follow |
| `HTMLParsing.RunSerialize` | Accelera/parser/HTMLParser.swift:60-98 | the events of a subtree build exactly that subtree and attach it to the open element |
| `HTMLParsing.ParseRoundTrip` | Accelera/parser/HTMLParser.swift:60-106 | the events of any tree with storable text, followed by end of document, are well nested and deliver exactly that tree |
| `HTMLParsing.HTMLParser.constructor` | Accelera/parser/HTMLParser.swift:13-20 | a new parser has no open element, no root and no result |
| `HTMLParsing.SubstituteEachTag` | Accelera/parser/HTMLParser.swift:28-30 | the loop over the nine tags yields the as-written substitution |
| `HTMLParsing.RestoreEachTag` | Accelera/parser/HTMLParser.swift:75-78 | the loop over the nine tags yields the as-written restoration |
| `HTMLParsing.AppendChunk` | Accelera/parser/HTMLParser.swift:75-84 | the restored and trimmed chunk is set as the text or appended to it, as `AddText` states |
| `HTMLParsing.HTMLParser.DidStartElement` | Accelera/parser/HTMLParser.swift:60-65 | the handler performs the start step |
| `HTMLParsing.HTMLParser.FoundCharacters` | Accelera/parser/HTMLParser.swift:67-85 | the handler performs the character step: a blank chunk is ignored; otherwise the chunk goes through the per-tag restore loop as written, is trimmed, and is set as or appended to the innermost element's text |
| `HTMLParsing.HTMLParser.DidEndElement` | Accelera/parser/HTMLParser.swift:87-98 | the handler performs the end step |
| `HTMLParsing.HTMLParser.DidEndDocument` | Accelera/parser/HTMLParser.swift:100-106 | the handler performs the end-of-document step |
| `HTMLParsing.HTMLParser.DidFail` | Accelera/parser/HTMLParser.swift:108-114 | parse and validation errors are forwarded as failures |
| `HTMLParsing.HTMLParser.ParseEvents` | Accelera/parser/HTMLParser.swift:40-49 | the parser's state after the events is `Run` of them |
| `HTMLParsing.HTMLParser.Parse` | Accelera/parser/HTMLParser.swift:24-38 | the markup goes through the per-tag substitution loop as written; a UTF-8 failure then reports `nonValidHTML`, and otherwise the events of the substituted markup are run |
| `RenderingElement.GetAttribute` | Accelera/view/views/AcceleraRenderingElement.swift:20-22 | a value exactly when the attribute is present, and then that value |
| `RenderingElement.NumberSpec` | Accelera/view/views/AcceleraRenderingElement.swift:24-40 | width, height, font size and corner radius are absent exactly when the attribute is missing or has no digit, and are otherwise the number formed by its digits |
| `RenderingElement.WidthOfDecimalWithUnit` | Accelera/view/views/AcceleraRenderingElement.swift:24-31 | a decimal value with a unit reads as all its digits run together ("12.5px" is 125) |
| `RenderingElement.WidthOfDigitsAround` | Accelera/view/views/AcceleraRenderingElement.swift:24-31 | separators and units without digits are ignored: the width is the value of the digits before and after them taken together |
| `RenderingElement.Number` | Accelera/view/views/AcceleraRenderingElement.swift:24-40 | the numeric attributes: the number formed by the value's digits; pinned by `NumberSpec` |
| `RenderingElement.LevelSpec` | Accelera/view/views/AcceleraRenderingElement.swift:112-118 | `level` is present exactly when the attribute has digits whose value fits in `Int`, and is then that value |
| `RenderingElement.Level` | Accelera/view/views/AcceleraRenderingElement.swift:112-118 | `level` as `Int(digits)`; pinned by `LevelSpec` |
| `RenderingElement.NonEmptyValue` | Accelera/view/views/AcceleraRenderingElement.swift:42-54 | `align` and `href` are the raw value when it is non-empty, and absent when it is missing or empty |
| `RenderingElement.ColorOf` | Accelera/view/views/AcceleraRenderingElement.swift:96-110 | `color` and `backgroundColor` are the hex colour of a present, non-empty value |
| `RenderingElement.TokenValueSpec` | Accelera/view/views/AcceleraRenderingElement.swift:65 | a shorthand token is the value of its digits, or 0 when it has none or they overflow |
| `RenderingElement.TokenValues` | Accelera/view/views/AcceleraRenderingElement.swift:65 | one value per token, in order |
| `RenderingElement.ShorthandFallbacks` | Accelera/view/views/AcceleraRenderingElement.swift:67-72 | one to four values fill top, right, bottom and left with the CSS fallbacks, and values after the fourth are ignored |
| `RenderingElement.Shorthand` | Accelera/view/views/AcceleraRenderingElement.swift:67-72 | the CSS one-to-four value fallbacks; pinned by `ShorthandFallbacks` |
| `RenderingElement.EdgeInsets` | Accelera/view/views/AcceleraRenderingElement.swift:56-94 | `margin` and `padding`; pinned by `MissingAndEmptyInsets`, `InsetsNonNegative` and the `Margin…Values` lemmas |
| `RenderingElement.MissingAndEmptyInsets` | Accelera/view/views/AcceleraRenderingElement.swift:56-63 | a missing margin or padding is nil, an empty one is zero insets, and a present one always resolves |
| `RenderingElement.InsetsNonNegative` | Accelera/view/views/AcceleraRenderingElement.swift:56-94 | resolved insets are never negative |
| `RenderingElement.TwoWords` | Accelera/view/views/AcceleraRenderingElement.swift:65 | two words with one space split into those two words |
| `RenderingElement.MarginTwoValues` | Accelera/view/views/AcceleraRenderingElement.swift:56-74 | "a b" gives a/b/a/b |
| `RenderingElement.MarginThreeValues` | Accelera/view/views/AcceleraRenderingElement.swift:56-74 | "a b c" gives a/b/c/b |
| `RenderingElement.MarginDoubledSpace` | Accelera/view/views/AcceleraRenderingElement.swift:65-72 | a doubled space makes an empty token worth 0, so "a  b" gives a/0/b/0 |
| `RenderingElement.BorderSpec` | Accelera/view/views/AcceleraRenderingElement.swift:138-152 | a border exists exactly when the value splits into three words; its size is the first word's digits or 0, its type is the second word verbatim, its colour the hex colour of the third, and the three words spell the value without its spaces |
| `RenderingElement.BorderOf` | Accelera/view/views/AcceleraRenderingElement.swift:138-152 | `border`; pinned by `BorderSpec` |
| `Layout.SelectAppend` | Accelera/view/views/AcceleraBlock.swift:38-71 | the relationships pinning one edge are found part by part, in order |
| `Layout.AlignAnchor` | Accelera/view/views/AcceleraBlock.swift:38-51 | the alignment of a view with a fixed width; pinned by `AlignRules` |
| `Layout.TopAnchor` | Accelera/view/views/AcceleraBlock.swift:62-67 | the top edge: to the previous sibling with its bottom margin, else to the parent's top padding; pinned by `VerticalRules` |
| `Layout.BottomAnchor` | Accelera/view/views/AcceleraBlock.swift:69-71 | the bottom edge of the last child only; pinned by `VerticalRules` |
| `Layout.BlockAnchors` | Accelera/view/views/AcceleraBlock.swift:38-71 | the block and label relationships; pinned by `BlockRules` |
| `Layout.ButtonAnchors` | Accelera/view/views/AcceleraButton.swift:51-83 | the button relationships; pinned by `ButtonRules` |
| `Layout.VerticalRules` | Accelera/view/views/AcceleraBlock.swift:57-71 | one top relationship: to the previous sibling when there is one, else to the parent; a fixed height exactly when a height is given; a bottom relationship only for the last child |
| `Layout.BlockRules` | Accelera/view/views/AcceleraBlock.swift:38-71 | a fixed width and an alignment with a width, leading and trailing without one, and the vertical rules |
| `Layout.AlignRules` | Accelera/view/views/AcceleraBlock.swift:38-51 | a parent align of center gives centerX, right gives trailing, and anything else gives leading |
| `Layout.MissingInsetsAreZero` | Accelera/view/views/AcceleraBlock.swift:25-26 | a missing parent padding, own margin or sibling margin counts as zero insets |
| `Layout.ButtonEdge` | Accelera/view/views/AcceleraButton.swift:44-84 | the button's width and alignment come before the vertical rules |
| `Layout.ButtonRules` | Accelera/view/views/AcceleraButton.swift:51-83 | exactly one width relationship, fixed or at most the parent's; exactly one alignment and never a leading-and-trailing fill; top and bottom as for a block |
| `Views.UIView.constructor` | Accelera/view/views/AcceleraAbstractView.swift:23-31 | a new UIKit view of the requested type with the initial look |
| `Views.View.constructor` | Accelera/view/views/AcceleraAbstractView.swift:13-21 | a new view stores its element, type and identifier, and has not created its UIKit view |
| `Views.View.WithView` | Accelera/view/views/AcceleraAbstractView.swift:13-21 | a view given its UIKit view stores it as the cached one |
| `Views.View.GetView` | Accelera/view/views/AcceleraAbstractView.swift:23-31 | the first access creates the UIKit view and later ones return the cached instance |
| `Views.View.Create` | Accelera/view/views/AcceleraAbstractView.swift:33-38 | afterwards the UIKit view exists, and an existing one is kept |
| `Views.View.Prepare` | Accelera/view/views/AcceleraAbstractView.swift:40-42 | the default `prepare` calls its completion exactly once |
| `Views.View.Render` | Accelera/view/views/AcceleraAbstractView.swift:44-46 | the default `render` changes nothing |
| `Views.ViewIsCached` | Accelera/view/views/AcceleraAbstractView.swift:23-31 | two accesses return the same UIKit view |
| `Views.EqualityIsIdentity` | Accelera/view/views/AcceleraAbstractView.swift:48-50 | `==` compares identifiers only, and is symmetric and reflexive |
| `Block.Prepare` | Accelera/view/views/AcceleraBlock.swift:17-19 | the completion runs exactly once, immediately |
| `Block.Render` | Accelera/view/views/AcceleraBlock.swift:21-72 | the block is styled, leaves the autoresizing mask, and gains the block relationships after its existing ones |
| `Block.Decorate` | Accelera/view/views/AcceleraBlock.swift:23-71 | the same on the UIKit view |
| `Block.ApplyStyle` | Accelera/view/views/AcceleraBlock.swift:28-36 | background, corner radius and border are set from the attributes |
| `Block.Styled` | Accelera/view/views/AcceleraBlock.swift:28-36 | the look a block gets; pinned by `RenderedRules` |
| `Block.ActivateBlockAnchors` | Accelera/view/views/AcceleraBlock.swift:38-71 | the block relationships are appended in order |
| `Block.ActivateHorizontal` | Accelera/view/views/AcceleraBlock.swift:38-55 | the horizontal relationships are appended |
| `Block.ActivateVertical` | Accelera/view/views/AcceleraBlock.swift:57-71 | the vertical relationships are appended |
| `Block.RenderedRules` | Accelera/view/views/AcceleraBlock.swift:21-72 | existing relationships are kept and the block's follow them; corner radius is `borderRadius` or 0; background and border change only when present; text and image are untouched |
| `Block.SetAttribute` | Accelera/view/views/AcceleraSpacer.swift:15 | setting an attribute updates that key of the map and nothing else |
| `Block.SpacerPrepare` | Accelera/view/views/AcceleraSpacer.swift:13-18 | a height that does not resolve is set to "10" before the block's `prepare`, which completes once |
| `Block.TenIsTen` | Accelera/view/views/AcceleraSpacer.swift:15 | "10" resolves to a height of 10 |
| `Block.SpacerHeight` | Accelera/view/views/AcceleraSpacer.swift:14-16 | after `prepare` the height always resolves; a height with digits is kept, a missing or digit-free one becomes 10, and no other attribute changes |
| `Label.FontSizeRules` | Accelera/view/views/AcceleraLabel.swift:35-56 | size 15 with no level; 32, 28 and 20 for levels 1 to 3 and 16 for any other level; an explicit font size wins |
| `Label.CloseAt` | Accelera/view/views/AcceleraLabel.swift:64 | finds the first `>` from a position, or reports that there is none |
| `Label.StripTags` | Accelera/view/views/AcceleraLabel.swift:64 | removing `<…>` tags; pinned by `StripPlain`, `StripTagPrefix` and the `…Vanish` lemmas |
| `Label.FloatText` | Accelera/view/views/AcceleraLabel.swift:59 | the decimal text of the font size inside the `<span>` |
| `Label.LabelText` | Accelera/view/views/AcceleraLabel.swift:52-64 | the wrapped text with its tags stripped; pinned by `LabelTextOfPlainText` |
| `Label.StripPlain` | Accelera/view/views/AcceleraLabel.swift:64 | removing tags from a text without `<` changes nothing |
| `Label.StripTagPrefix` | Accelera/view/views/AcceleraLabel.swift:64 | a leading `<…>` tag is removed |
| `Label.ClosingTagsVanish` | Accelera/view/views/AcceleraLabel.swift:59-64 | the closing tags vanish |
| `Label.SpanOpenVanishes` | Accelera/view/views/AcceleraLabel.swift:59-64 | the `<span …>` wrapper vanishes |
| `Label.BoldVanishes` | Accelera/view/views/AcceleraLabel.swift:52-64 | the heading's bold tags vanish |
| `Label.PlainKept` | Accelera/view/views/AcceleraLabel.swift:59-64 | plain text is kept |
| `Label.LabelTextOfPlainText` | Accelera/view/views/AcceleraLabel.swift:52-64 | for element text without `<`, the label's text is exactly that text |
| `Label.Prepare` | Accelera/view/views/AcceleraLabel.swift:16-66 | the completion runs exactly once on every path; a label without text, or a view that is no `UILabel`, is left alone; otherwise it is styled and given the stripped text |
| `Label.Configure` | Accelera/view/views/AcceleraLabel.swift:30-65 | the UIKit label is styled and its text set |
| `Label.ApplyTextStyle` | Accelera/view/views/AcceleraLabel.swift:30-56 | background, lines, colour, wrapping, font size and boldness are set |
| `Label.Render` | Accelera/view/views/AcceleraLabel.swift:68-129 | a label gets its parent's alignment and the block relationships; any other view is left alone |
| `Label.AlignmentRules` | Accelera/view/views/AcceleraLabel.swift:74-87 | left, center and right set the matching alignment, and any other value leaves it unchanged |
| `ImageViewKind.ImageSource` | Accelera/view/views/AcceleraImageView.swift:27-29 | an address exactly when `src` is present, non-empty and a valid URL |
| `ImageViewKind.Prepare` | Accelera/view/views/AcceleraImageView.swift:17-39 | the completion runs exactly once; a load is requested only for a valid `src`, and a decoded image is stored |
| `ImageViewKind.LoadRules` | Accelera/view/views/AcceleraImageView.swift:27-35 | without `src` nothing changes; a decoded image is stored with aspect fill; relationships are never touched |
| `ImageViewKind.Render` | Accelera/view/views/AcceleraImageView.swift:41-111 | without an image nothing at all happens; otherwise the view is styled and positioned |
| `ImageViewKind.Decorate` | Accelera/view/views/AcceleraImageView.swift:51-110 | the same on the UIKit view |
| `ImageViewKind.ApplyImageStyle` | Accelera/view/views/AcceleraImageView.swift:51-56 | corner radius is `borderRadius` or 0, and border width and colour are set only when `border` parses |
| `ImageViewKind.ActivateDerivedSize` | Accelera/view/views/AcceleraImageView.swift:62-73 | the derived-size relationships are appended |
| `ImageViewKind.Position` | Accelera/view/views/AcceleraImageView.swift:60-110 | the view leaves the autoresizing mask and gains the image relationships in order |
| `ImageViewKind.DerivedKeepsAspect` | Accelera/view/views/AcceleraImageView.swift:62-73 | a width alone derives the height and a height alone derives the width, both at the image's ratio; with both or neither nothing is derived |
| `ImageViewKind.DerivedSize` | Accelera/view/views/AcceleraImageView.swift:62-73 | the size relationships derived from the image's ratio; pinned by `DerivedKeepsAspect` and `DerivedEdges` |
| `ImageViewKind.DerivedEdges` | Accelera/view/views/AcceleraImageView.swift:62-73 | a derived relationship pins exactly the missing dimension |
| `ImageViewKind.ImageRules` | Accelera/view/views/AcceleraImageView.swift:62-110 | with a width or a height the image gets exactly one width and one height; alignment, top and bottom follow the block rules |
| `Button.CornerRadiusFor` | Accelera/view/views/AcceleraButton.swift:36-37 | the radius is half of padding.top + padding.bottom + font size, but never more than 24 |
| `Button.New` | Accelera/view/views/AcceleraButton.swift:13-20 | a new button view is created, styled from its element, and calls its completion exactly once |
| `Button.ApplyAttributes` | Accelera/view/views/AcceleraButton.swift:24-42 | a `UIButton` is styled from the attributes; any other view is left alone |
| `Button.Style` | Accelera/view/views/AcceleraButton.swift:29-40 | the button's look is the styled one |
| `Button.ButtonDefaults` | Accelera/view/views/AcceleraButton.swift:29-40 | padding defaults to 14/40/14/40, font size to 15 and background to #0091ff; the radius rule holds; title, clipping and tap target are set |
| `Button.ButtonStyled` | Accelera/view/views/AcceleraButton.swift:29-40 | the look a button gets; pinned by `ButtonDefaults` |
| `Button.DefaultCornerRadius` | Accelera/view/views/AcceleraButton.swift:33-37 | with neither padding nor font size the radius is 21.5 |
| `Button.SetConstraints` | Accelera/view/views/AcceleraButton.swift:44-84 | the button leaves the autoresizing mask and gains the button relationships after its existing ones |
| `Button.ActivateButtonAnchors` | Accelera/view/views/AcceleraButton.swift:51-83 | the button relationships are appended in order |
| `Button.Tap` | Accelera/view/views/AcceleraButton.swift:86-90 | a tap sends `href` only when an action is set |
| `Button.TapRules` | Accelera/view/views/AcceleraButton.swift:86-90 | something is sent exactly when an action is set and `href` is non-empty, and it is `href` itself |
| `ViewTree.IndexOf` | Accelera/view/AcceleraBannerViewController.swift:125 | the first position holding the identifier, or none when it is absent |
| `ViewTree.Before` | Accelera/view/AcceleraBannerViewController.swift:125 | `before(_:)` returns the element just before the first view with the same identifier; it returns nothing exactly when that view comes first or is absent |
| `ViewTree.IsLast` | Accelera/view/AcceleraBannerViewController.swift:125 | `last` exactly when the final descendent has the view's identifier |
| `ViewTree.PositionsByIdentity` | Accelera/view/AcceleraBannerViewController.swift:122-130 | with increasing sibling identifiers, each view's predecessor is its real one, and only the final view is last |
| `ViewTree.DuplicateIdentifiersConfuseBefore` | Accelera/view/AcceleraBannerViewController.swift:122-130 | with a repeated identifier a later copy gets the wrong predecessor |
| `BannerPlan.TagMapping` | Accelera/view/AcceleraBannerViewController.swift:136-162 | re-body, re-main and re-block are blocks; re-heading and re-text are labels; re-image is an image; re-button is a button; every other name maps to nothing |
| `BannerPlan.KindOf` | Accelera/view/AcceleraBannerViewController.swift:136-162 | `createView`'s switch on the tag; pinned by `TagMapping` |
| `BannerPlan.SpacerIsNotMapped` | Accelera/view/AcceleraBannerViewController.swift:136-162 | `re-spacer` is not mapped |
| `BannerPlan.RecognisedRoot` | Accelera/view/AcceleraBannerViewController.swift:80-89 | a recognised element yields one view, with the next identifier, its element and its kind |
| `BannerPlan.Flatten` | Accelera/view/AcceleraBannerViewController.swift:80-101 | the views an element yields; pinned by `RecognisedRoot`, `FlattenNumbering` and `DocumentTopView` |
| `BannerPlan.Attach` | Accelera/view/AcceleraBannerViewController.swift:84-101 | attaching finished views to the innermost open view or as the top view; pinned by `AttachKeepsStack` and `AttachOpened` |
| `BannerPlan.AttachAppend` | Accelera/view/AcceleraBannerViewController.swift:84-89 | attaching views in two steps is attaching them at once |
| `BannerPlan.AttachNothing` | Accelera/view/AcceleraBannerViewController.swift:84-89 | attaching no view changes nothing |
| `BannerPlan.AttachOpened` | Accelera/view/AcceleraBannerViewController.swift:84-101 | views attached above a freshly opened view become its descendents |
| `BannerPlan.AttachKeepsStack` | Accelera/view/AcceleraBannerViewController.swift:84-101 | attaching keeps the stack's depth and lower entries, gives the innermost only new descendents, and changes the top view only when the stack is empty, to the last view |
| `BannerPlan.FlattenNumbering` | Accelera/view/AcceleraBannerViewController.swift:80-101 | the identifiers of an element's views are fresh and increasing among siblings, all the way down |
| `BannerPlan.FlattenAllNumbering` | Accelera/view/AcceleraBannerViewController.swift:91-93 | the same for a list of children |
| `BannerPlan.JoinNumbered` | Accelera/view/AcceleraBannerViewController.swift:91-93 | well-numbered views from consecutive identifier ranges stay well numbered together |
| `BannerPlan.CallsUseRealNeighbours` | Accelera/view/AcceleraBannerViewController.swift:122-130 | in a well-numbered tree each view is rendered against its real previous sibling, and only the final child is flagged last |
| `BannerPlan.Plan` | Accelera/view/AcceleraBannerViewController.swift:117-130 | the render calls of a view and its descendents; pinned by `PlanIsPreOrder` and `CallsUseRealNeighbours` |
| `BannerPlan.Views` | Accelera/view/AcceleraBannerViewController.swift:122-130 | one rendered view per render call |
| `BannerPlan.ViewsAppend` | Accelera/view/AcceleraBannerViewController.swift:122-130 | the views of two call lists are those of each, in order |
| `BannerPlan.PlanIsPreOrder` | Accelera/view/AcceleraBannerViewController.swift:122-130 | rendering visits the parent first, then its descendents in order: pre-order |
| `BannerPlan.PlanAllIsPreOrder` | Accelera/view/AcceleraBannerViewController.swift:117-119 | the same for a list of descendents |
| `BannerController.Counted` | Accelera/view/AcceleraBannerViewController.swift:79-82 | entering and leaving once per element keeps the difference between enters and leaves |
| `BannerController.Enter` | Accelera/view/AcceleraBannerViewController.swift:79 | `enter()` counts one more entry on an existing group |
| `BannerController.Leave` | Accelera/view/AcceleraBannerViewController.swift:164-166 | `leave()` counts one more exit on an existing group |
| `BannerController.ReportsSnoc` | Accelera/view/AcceleraBannerViewController.swift:42-60 | each completion call adds one of the delegate events it may report |
| `BannerController.WalkedNothing` | Accelera/view/AcceleraBannerViewController.swift:91-93 | walking no children changes nothing |
| `BannerController.Walked` | Accelera/view/AcceleraBannerViewController.swift:77-104 | `parseElement` on the walk state; pinned by `WalkedPlain`, `WalkedView`, `WalkRestoresParents` and `WalkKeepsBalance` |
| `BannerController.WalkedAllSnoc` | Accelera/view/AcceleraBannerViewController.swift:91-93 | walking one more child is walking it after the ones before |
| `BannerController.WalkedPlain` | Accelera/view/AcceleraBannerViewController.swift:77-104 | an unknown tag is entered and left once and passes its children's views on |
| `BannerController.WalkedView` | Accelera/view/AcceleraBannerViewController.swift:77-104 | a known tag opens a view, its children's views become that view's descendents, and the finished view is attached to its nearest recognised ancestor |
| `BannerController.WalkRestoresParents` | Accelera/view/AcceleraBannerViewController.swift:84-101 | `parsingParents` is back at its entry depth with its lower entries untouched; with no open view, a recognised element becomes the top view |
| `BannerController.WalkKeepsBalance` | Accelera/view/AcceleraBannerViewController.swift:79-82 | every element enters and leaves once, so a balanced group stays balanced, and every element is passed to `createView` once, in pre-order |
| `BannerController.DocumentTopView` | Accelera/view/AcceleraBannerViewController.swift:95-101 | a document with a recognised root yields that root's view as the top view, well numbered |
| `BannerController.Handled` | Accelera/view/AcceleraBannerViewController.swift:42-60 | one call of the completion handler on the controller's session; pinned by `HandledReports` and `FirstDocumentReady` |
| `BannerController.HandledAll` | Accelera/view/AcceleraBannerViewController.swift:42-60 | the completion handler called for each result in turn; pinned by `HandledAllReports` |
| `BannerController.HandledReports` | Accelera/view/AcceleraBannerViewController.swift:42-60 | each result adds exactly one delegate call that it can lead to, keeps the earlier calls and waits, and every group waited on is balanced |
| `BannerController.HandledAllReports` | Accelera/view/AcceleraBannerViewController.swift:42-60 | over all results: one admissible delegate call per result, in order, and every group waited on is balanced |
| `BannerController.FirstDocumentReady` | Accelera/view/AcceleraBannerViewController.swift:47-60 | on a fresh controller, `onReady` fires exactly when the document yields a view, which it always does when the root has a known tag |
| `BannerController.ParserResults` | Accelera/view/AcceleraBannerViewController.swift:42 | the results `parse(html:)` hands to the completion handler; pinned by `HTMLParser.Parse` |
| `BannerController.BannerViewController.constructor` | Accelera/view/AcceleraBannerViewController.swift:21-28 | a new controller has no view, no group, no top view, an empty parent stack and banner type `.center` |
| `BannerController.BannerViewController.Create` | Accelera/view/AcceleraBannerViewController.swift:34-63 | the banner type is always set first; with a pending group only the "Already creating" error is reported and nothing else changes; otherwise the whole new state (walk, banner, render calls, waited groups, delegate events) is the completion handler folded over the parser's results |
| `BannerController.BannerViewController.ParseAndHandle` | Accelera/view/AcceleraBannerViewController.swift:42-61 | the parser's results, as `parse(html:)` delivers them, go through the completion handler in turn; the new session is that fold and no group is left pending |
| `BannerController.BannerViewController.HandleAll` | Accelera/view/AcceleraBannerViewController.swift:42-60 | the new state is the completion handler folded over the results in turn; the banner type is unchanged and no group is left pending |
| `BannerController.BannerViewController.HandleResult` | Accelera/view/AcceleraBannerViewController.swift:42-60 | the new state is one step of the completion handler: a failure is forwarded as a parsing error; a success walks the tree with a fresh group that balances, renders, and reports ready or "View was not created properly" |
| `BannerController.BannerViewController.Deliver` | Accelera/view/AcceleraBannerViewController.swift:47-60 | the success branch: walk, render, report |
| `BannerController.BannerViewController.Collect` | Accelera/view/AcceleraBannerViewController.swift:49-52 | the group is created, the tree is walked, and the group is released after the wait |
| `BannerController.BannerViewController.Report` | Accelera/view/AcceleraBannerViewController.swift:56-60 | ready when a view exists, the "not created" error otherwise |
| `BannerController.BannerViewController.Clear` | Accelera/view/AcceleraBannerViewController.swift:65-74 | view, group and top view are nil, the parent stack is empty and the type is `.center`; the old view is removed from its superview |
| `BannerController.BannerViewController.ParseElement` | Accelera/view/AcceleraBannerViewController.swift:77-104 | the walk of one element, and a view made exactly for a recognised tag |
| `BannerController.BannerViewController.CurrentSession` | Accelera/view/AcceleraBannerViewController.swift:34-63 | the controller's session: walk state, banner, render calls, waited groups and delegate events |
| `BannerController.BannerViewController.WalkChildren` | Accelera/view/AcceleraBannerViewController.swift:91-93 | the walk of the children in order |
| `BannerController.BannerViewController.Finish` | Accelera/view/AcceleraBannerViewController.swift:95-101 | the innermost open view is popped and becomes the top view or joins its parent |
| `BannerController.BannerViewController.CreateView` | Accelera/view/AcceleraBannerViewController.swift:132-169 | the kind is the tag mapping's; the element is recorded and the group is left once |
| `BannerController.BannerViewController.Render` | Accelera/view/AcceleraBannerViewController.swift:106-120 | without a top view nothing happens; otherwise a new banner view holds the top view and every view below it is rendered in plan order |
| `BannerController.BannerViewController.RenderView` | Accelera/view/AcceleraBannerViewController.swift:122-130 | a view's render call, then its descendents' |
| `BannerController.BannerViewController.RenderChildren` | Accelera/view/AcceleraBannerViewController.swift:117-119 | the descendents' plans in order |
| `BannerController.BannerViewController.ForwardClose` | Accelera/view/AcceleraBannerViewController.swift:172-175 | a close is passed on to the delegate |
| `BannerController.BannerViewController.ForwardAdded` | Accelera/view/AcceleraBannerViewController.swift:176-179 | an "added" notification is passed on to the delegate |
| `BannerController.BannerViewController.ForwardAction` | Accelera/view/AcceleraBannerViewController.swift:156 | a button action is passed on to the delegate |
| `BannerViews.FirstChain` | Accelera/view/AcceleraBannerView.swift:91-103 | the first-child chain starts at the top view |
| `BannerViews.ChainBackground` | Accelera/view/AcceleraBannerView.swift:91-103 | the first background down the first-child chain; pinned by `NoBackgroundOnChain` and `FirstBackgroundOnChain` |
| `BannerViews.NoBackgroundOnChain` | Accelera/view/AcceleraBannerView.swift:91-103 | no background is found exactly when no view on the chain has one |
| `BannerViews.FirstBackgroundOnChain` | Accelera/view/AcceleraBannerView.swift:91-103 | a background found is the first one on the chain |
| `BannerViews.FindBackground` | Accelera/view/AcceleraBannerView.swift:91-103 | the loop returns the chain's first background |
| `BannerViews.CloseButtonColor` | Accelera/view/AcceleraBannerView.swift:109 | white exactly when a background was found and it is not light; black otherwise, including with no background |
| `BannerViews.ClosePinsRules` | Accelera/view/AcceleraBannerView.swift:118-121 | 24 by 24, top at 10 + padding.top and trailing at −10 − padding.right, with absent padding counting as 0 |
| `BannerViews.ClosePins` | Accelera/view/AcceleraBannerView.swift:118-121 | the close button's pins; pinned by `ClosePinsRules` |
| `BannerViews.PinsRules` | Accelera/view/AcceleraBannerView.swift:55-80 | leading and trailing always; bottom to the superview only for fullscreen; bottom to the content otherwise; centerY only for center, top for the rest |
| `BannerViews.PinsFor` | Accelera/view/AcceleraBannerView.swift:55-80 | the banner's pins per type; pinned by `PinsRules` |
| `BannerViews.BannerView.constructor` | Accelera/view/AcceleraBannerView.swift:18-29 | only fullscreen takes a background; the content and the close button are the subviews |
| `BannerViews.BannerView.CreateCloseButton` | Accelera/view/AcceleraBannerView.swift:105-123 | the close button's title, colour, pins and tap target |
| `BannerViews.BannerView.WillMove` | Accelera/view/AcceleraBannerView.swift:39-45 | "added" fires only on the move from no superview to a superview |
| `BannerViews.BannerView.DidMoveToSuperview` | Accelera/view/AcceleraBannerView.swift:47-88 | with a superview, the per-type pins and the top view's safe-area pins are installed; without one nothing changes |
| `BannerViews.BannerView.MoveTo` | Accelera/view/AcceleraBannerView.swift:39-88 | the two callbacks of one move |
| `BannerViews.BannerView.CloseButtonPress` | Accelera/view/AcceleraBannerView.swift:126-128 | a press reports a close |
| `BannerViews.AddedOnce` | Accelera/view/AcceleraBannerView.swift:39-45 | moving into a superview twice fires "added" at most once |
| `Config.RawValueRoundTrip` | Accelera/AcceleraConfig.swift:11-20 | `init(rawValue:)` of a type's raw value gives the type back |
| `Config.FromRawValueInverse` | Accelera/AcceleraConfig.swift:11-20 | `init(rawValue:)` succeeds exactly for the four raw values, and then gives the type whose raw value it read |
| `Config.RawValuesDistinct` | Accelera/AcceleraConfig.swift:11-20 | the raw values are pairwise distinct |
| `Config.NewConfig` | Accelera/AcceleraConfig.swift:31-35 | token, url and userId are stored unchanged |
| `NetworkErrors.FromJson` | Accelera/networking/NetworkError.swift:16-22 | a string "message" decodes to `.custom(message)`; a missing or non-string one gives `.other` |
| `NetworkErrors.ErrorDescription` | Accelera/networking/NetworkError.swift:26-35 | "No Internet connection", the custom message itself, and "Something went wrong" |
| `NetworkErrors.DescribeDecoded` | Accelera/networking/NetworkError.swift:16-35 | decoding and then describing gives the server's message, or "Something went wrong" without one |
| `NetworkErrors.CustomCanMimicOther` | Accelera/networking/NetworkError.swift:26-35 | a custom message can read exactly like `.other` |

## Left out

- Object identity in the parser and in the controller's tree. The parser's element stack, its root and the controller's view tree are values (`Node`, `ViewNode`), not shared references.
  - The controller attaches a view to its parent's `descendents` when the view is finished, rather than when it is created. The resulting tree is the same.
  - The `root` reference, which aliases the bottom of the stack, is a `RootState`.
- The `Element` class is kept for its constructor, `children.append`, the text assignment and `description`. The parser class works on the value tree.
- BannerController.BannerViewController.ParseElement: records the view structure and the calls to `createView` and `renderView`. It does not record the looks the view kinds' `prepare` and `render` give the UIKit views; those are proved per view kind in `Block`, `Label`, `ImageViewKind` and `Button`.
- BannerController.BannerViewController.RenderView: the `addSubview` calls are not recorded; the render call records the view, its parent, its previous sibling and the `last` flag.
- Threads, asynchronous callbacks and blocking: the `DispatchGroup` wait, the main-queue hops and the asynchronous `create()` are modelled as immediate. Only the enter/leave counting is kept.
- The weak delegate and the weak `self` are assumed present; the `deinit` that calls `clear()` is not modelled.
- `UUID()` view identifiers are a counter (`nextId`), so identifiers are distinct by construction.
- Foreign code is a parameter:
  - the XML tokeniser (`XMLParser`) is a function from data to a delegate event sequence, assumed well nested;
  - the UTF-8 encoding, URL validity and image loading are parameters;
  - `UIColor(hex:)` is a `Hex` value, and `toHexString` and `isLight` are function parameters.
- XML error values are their `NSError` codes (`ParseFailure.Xml`); Foundation's message texts for them are not modelled.
- StringExt.Digits: only ASCII digits count as decimal digits; `CharacterSet.decimalDigits` also holds other Unicode digits.
- SwiftText.IntInit: models `Int(_:)` on digit strings only, with the 64-bit range; signs are never present after `digits`.
- Floating point:
  - numeric attributes are integers (`NumberFormatter` on a digit string);
  - the image aspect ratio and the button's half-height radius use exact `real` arithmetic in place of `CGFloat`.
- Label.Prepare: the `HelveticaNeue` font with bold traits, `setLineSpacing` and the attributed-string conversion are not modelled. The look records the font size, the boldness flag and the text left once the tags are stripped.
- Label.FloatText: the text of the font size inside the `<span>` is its decimal digits (`"\(fontSize)"` of a `CGFloat` prints "15.0"). Only the absence of `<` and `>` matters to the stripping rule.
- Button.New: `startAnimatingPressActions` and the button's title font are not modelled.
- UIKit rendering itself (layer drawing, constraint solving) is left out: activating a constraint appends a `Layout.Anchor` value to the view's list.
- The `description` of `AcceleraAbstractView` is not modelled (it only prints the element).
- The source files come from different snapshots, and the model takes these readings:
  - `AcceleraBlock(element:completion:)` is the plain initialiser followed by `prepare`;
  - the button's `setConstraints` plays the role of `render`;
  - `before(_:)` finds the predecessor by identity (`ViewTree.Before`);
  - `setAttribute` is a map update (`Block.SetAttribute`);
  - the banner view is built as `init(topView:type:)` describes, with its content added as a subview.
- `re-spacer` is not mapped by `createView`, so no spacer view is ever created from markup (`BannerPlan.SpacerIsNotMapped`). `Block.SpacerPrepare` models the spacer's `prepare` on its own.

## Findings

| source | as written | input that shows it | evidently intended | confidence | as-written member | corrected member |
|---|---|---|---|---|---|---|
| Accelera/parser/HTMLParser.swift:28-30,75-78 | the tags are substituted one after another, and the sentinels are restored the same way, each tag in turn over the whole text | the markup `<b>br</b>` becomes `!@#b!@#br!@#/b!@#`, and restoring `br` first matches `!@#br!@#` across the two sentinels, giving `!@#b<br>/b!@#` | the text inside an element comes back as written, `<b>br</b>` | not executed | `HTMLTags.RestoreAsWrittenBreaksBoldBr` | `HTMLTags.RestoreSubstitute` |

The parser model (`HTMLParsing.Parse`, `HTMLParsing.AddText`) follows the
code as written: it uses the per-tag loops `HTMLTags.SubstituteTagsAsWritten`
and `HTMLTags.RestoreTagsAsWritten`. The corrected substitution and
restoration (`HTMLTags.SubstituteTags`, `HTMLTags.RestoreTags`) make a single
left-to-right pass over the text. They round-trip every text that holds no
`!@#` marker, which is what the parser needs to give back the text inside an
element as it was written.
