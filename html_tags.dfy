/**
 * The inline-tag substitution of `HTMLParser`: before parsing, each
 * `<tag>` of `tagsToReplace` becomes the sentinel `!@#tag!@#`, so that the
 * XML parser sees it as text; inside character data the sentinels are
 * turned back into tags.
 */
module HTMLTags {
  import opened Wrappers
  import opened SwiftText

  const TagsToReplace: seq<string> := ["br", "b", "/b", "u", "/u", "i", "/i", "strong", "/strong"]
  const Marker: string := "!@#"

  function OpenTag(tag: string): string {
    "<" + tag + ">"
  }

  function Sentinel(tag: string): string {
    Marker + tag + Marker
  }

  predicate StartsWith(s: string, prefix: string) {
    |prefix| <= |s| && s[..|prefix|] == prefix
  }

  /** What is searched for: the tag before parsing, the sentinel when restoring. */
  function Pattern(tag: string, restore: bool): string {
    if restore then Sentinel(tag) else OpenTag(tag)
  }

  /** What it is replaced with. */
  function Replacement(tag: string, restore: bool): string {
    if restore then OpenTag(tag) else Sentinel(tag)
  }

  // ---------------------------------------------------------------------
  // As written: one `replacingOccurrences` pass per tag, in list order.
  // ---------------------------------------------------------------------

  function ReplaceEachTag(s: string, tags: seq<string>, restore: bool): string
    decreases |tags|
  {
    if tags == [] then s
    else ReplaceEachTag(ReplaceAll(s, Pattern(tags[0], restore), Replacement(tags[0], restore)), tags[1..], restore)
  }

  /** `parse(html:)`'s loop over `tagsToReplace`, as written. */
  function SubstituteTagsAsWritten(s: string): string {
    ReplaceEachTag(s, TagsToReplace, false)
  }

  /** `foundCharacters`' loop over `tagsToReplace`, as written. */
  function RestoreTagsAsWritten(s: string): string {
    ReplaceEachTag(s, TagsToReplace, true)
  }

  /** One pass of the loop. */
  lemma ReplaceEachTagStep(s: string, tags: seq<string>, restore: bool, next: string)
    requires tags != [] && ReplaceAll(s, Pattern(tags[0], restore), Replacement(tags[0], restore)) == next
    ensures ReplaceEachTag(s, tags, restore) == ReplaceEachTag(next, tags[1..], restore)
  {
  }

  /** Passes for tags whose last letter does not occur in `s` change nothing. */
  lemma {:induction false} ReplaceEachTagAbsent(s: string, tags: seq<string>, restore: bool)
    requires forall k :: 0 <= k < |tags| ==> tags[k] != [] && tags[k][|tags[k]| - 1] !in s
    ensures ReplaceEachTag(s, tags, restore) == s
    decreases |tags|
  {
    if tags != [] {
      var t := tags[0];
      var j := (if restore then 3 else 1) + |t| - 1;
      assert Pattern(t, restore)[j] == t[|t| - 1];
      ReplaceAllAbsentChar(s, Pattern(t, restore), Replacement(t, restore), j);
      ReplaceEachTagAbsent(s, tags[1..], restore);
    }
  }

  const LaterTags: seq<string> := ["u", "/u", "i", "/i", "strong", "/strong"]

  /** Each later tag ends in `u`, `i` or `g`. */
  lemma LaterTagsAbsent(s: string)
    requires 'u' !in s && 'i' !in s && 'g' !in s
    ensures forall k :: 0 <= k < |LaterTags| ==> LaterTags[k] != [] && LaterTags[k][|LaterTags[k]| - 1] !in s
  {
    forall k | 0 <= k < |LaterTags|
      ensures LaterTags[k] != [] && LaterTags[k][|LaterTags[k]| - 1] !in s
    {
      var t := LaterTags[k];
      assert t != [] && t[|t| - 1] in ['u', 'i', 'g'] by {
        if k == 0 { assert t == "u"; }
        else if k == 1 { assert t == "/u"; }
        else if k == 2 { assert t == "i"; }
        else if k == 3 { assert t == "/i"; }
        else if k == 4 { assert t == "strong"; }
        else { assert t == "/strong"; }
      }
    }
  }

  lemma NoLaterLetters(s: string)
    requires s == "!@#b!@#br!@#/b!@#" || s == "!@#b<br>/b!@#"
    ensures 'u' !in s && 'i' !in s && 'g' !in s
  {
  }

  /** The first three tags of the list, and the rest. */
  lemma TagsSplit()
    ensures |TagsToReplace| == 9
    ensures TagsToReplace[0] == "br" && TagsToReplace[1..][0] == "b" && TagsToReplace[1..][1..][0] == "/b"
    ensures TagsToReplace[1..][1..][1..] == LaterTags
  {
  }

  /** Patterns and replacements of the first three tags, in both directions. */
  lemma BoldBrPatterns()
    ensures Pattern("br", false) == "<br>" && Replacement("br", false) == "!@#br!@#"
    ensures Pattern("b", false) == "<b>" && Replacement("b", false) == "!@#b!@#"
    ensures Pattern("/b", false) == "</b>" && Replacement("/b", false) == "!@#/b!@#"
    ensures Pattern("br", true) == "!@#br!@#" && Replacement("br", true) == "<br>"
    ensures Pattern("b", true) == "!@#b!@#" && Replacement("b", true) == "<b>"
    ensures Pattern("/b", true) == "!@#/b!@#" && Replacement("/b", true) == "</b>"
  {
  }

  // Each pass below is proved by ReplaceAll's step lemmas on the pieces of
  // the string; the facts about the literal pieces sit in a lemma of their
  // own, so that no proof has to reason about literals and ReplaceAll at once.

  lemma SubstituteBrPieces(h: string)
    requires h == "<b>br</b>"
    ensures h[2] != "<br>"[2] && h[1..] == "b>br" + "</b>" && "<br>"[0] !in "b>br"
    ensures "</b>"[1] != "<br>"[1] && "</b>"[1..] == "/b>" && |"/b>"| < |"<br>"|
    ensures [h[0]] + ("b>br" + (["</b>"[0]] + "/b>")) == h
  {
  }

  /** The `<br>` pass before parsing leaves `<b>br</b>` alone. */
  lemma SubstituteBrPass(h: string)
    requires h == "<b>br</b>"
    ensures ReplaceAll(h, "<br>", "!@#br!@#") == h
  {
    var pat, rep := "<br>", "!@#br!@#";
    SubstituteBrPieces(h);
    ReplaceAllMismatch(h, pat, rep, 2);
    ReplaceAllSkip("b>br", "</b>", pat, rep);
    ReplaceAllMismatch("</b>", pat, rep, 1);
    ReplaceAllShort("/b>", pat, rep);
  }

  lemma SubstituteBPieces(h: string)
    requires h == "<b>br</b>"
    ensures h == "<b>" + "br</b>" && "br</b>" == "br" + "</b>" && "<b>"[0] !in "br"
    ensures "</b>"[1] != "<b>"[1] && "</b>"[1..] == "/b>" && "<b>"[0] !in "/b>"
    ensures "!@#b!@#" + ("br" + (["</b>"[0]] + "/b>")) == "!@#b!@#br</b>"
  {
  }

  /** The `<b>` pass before parsing. */
  lemma SubstituteBPass(h: string)
    requires h == "<b>br</b>"
    ensures ReplaceAll(h, "<b>", "!@#b!@#") == "!@#b!@#br</b>"
  {
    var pat, rep := "<b>", "!@#b!@#";
    SubstituteBPieces(h);
    ReplaceAllMatch(h, pat, rep, "br</b>");
    ReplaceAllSkip("br", "</b>", pat, rep);
    ReplaceAllMismatch("</b>", pat, rep, 1);
    ReplaceAllAbsentChar("/b>", pat, rep, 0);
  }

  lemma SubstituteCloseBPieces(s: string)
    requires s == "!@#b!@#br</b>"
    ensures s == "!@#b!@#br" + "</b>" && "</b>"[0] !in "!@#b!@#br" && "</b>" == "</b>" + ""
    ensures "!@#b!@#br" + ("!@#/b!@#" + "") == "!@#b!@#br!@#/b!@#"
  {
  }

  /** The `</b>` pass before parsing. */
  lemma SubstituteCloseBPass(s: string)
    requires s == "!@#b!@#br</b>"
    ensures ReplaceAll(s, "</b>", "!@#/b!@#") == "!@#b!@#br!@#/b!@#"
  {
    var pat, rep := "</b>", "!@#/b!@#";
    SubstituteCloseBPieces(s);
    ReplaceAllSkip("!@#b!@#br", "</b>", pat, rep);
    ReplaceAllMatch("</b>", pat, rep, "");
    ReplaceAllShort("", pat, rep);
  }

  lemma RestoreBrPieces(x: string)
    requires x == "!@#b!@#br!@#/b!@#"
    ensures x[4] != "!@#br!@#"[4] && x[1..] == "@#b" + ("!@#br!@#" + "/b!@#") && "!@#br!@#"[0] !in "@#b"
    ensures |"/b!@#"| < |"!@#br!@#"|
    ensures [x[0]] + ("@#b" + ("<br>" + "/b!@#")) == "!@#b<br>/b!@#"
  {
  }

  /** The `!@#br!@#` pass of the restore matches across two sentinels. */
  lemma RestoreBrPass(x: string)
    requires x == "!@#b!@#br!@#/b!@#"
    ensures ReplaceAll(x, "!@#br!@#", "<br>") == "!@#b<br>/b!@#"
  {
    var pat, rep := "!@#br!@#", "<br>";
    RestoreBrPieces(x);
    ReplaceAllMismatch(x, pat, rep, 4);
    ReplaceAllSkip("@#b", pat + "/b!@#", pat, rep);
    ReplaceAllMatch(pat + "/b!@#", pat, rep, "/b!@#");
    ReplaceAllShort("/b!@#", pat, rep);
  }

  lemma RestoreMissPieces(y: string)
    requires y == "!@#b<br>/b!@#"
    ensures y[1..] == "@#b<br>/b" + "!@#" && '!' !in "@#b<br>/b" && |"!@#"| < 4
    ensures [y[0]] + ("@#b<br>/b" + "!@#") == y
    ensures y[4] != "!@#b!@#"[4] && |"!@#b!@#"| <= |y| && "!@#b!@#"[0] == '!'
    ensures y[3] != "!@#/b!@#"[3] && |"!@#/b!@#"| <= |y| && "!@#/b!@#"[0] == '!'
  {
  }

  /** A restore pass for a sentinel that does not start `y` and is too long to fit at its only other `!`. */
  lemma RestoreMissPass(y: string, pat: string, rep: string, k: nat)
    requires y == "!@#b<br>/b!@#" && 4 <= |pat| <= |y| && k < |pat| && pat[0] == '!' && y[k] != pat[k]
    ensures ReplaceAll(y, pat, rep) == y
  {
    RestoreMissPieces(y);
    ReplaceAllMismatch(y, pat, rep, k);
    ReplaceAllSkip("@#b<br>/b", "!@#", pat, rep);
    ReplaceAllShort("!@#", pat, rep);
  }

  // The passes of the loops, one tag at a time.

  lemma SubstituteLoopBr(h: string)
    requires h == "<b>br</b>"
    ensures ReplaceEachTag(h, TagsToReplace, false) == ReplaceEachTag(h, TagsToReplace[1..], false)
  {
    TagsSplit();
    BoldBrPatterns();
    SubstituteBrPass(h);
    ReplaceEachTagStep(h, TagsToReplace, false, h);
  }

  lemma SubstituteLoopB(h: string, s1: string)
    requires h == "<b>br</b>" && s1 == "!@#b!@#br</b>"
    ensures ReplaceEachTag(h, TagsToReplace[1..], false) == ReplaceEachTag(s1, TagsToReplace[1..][1..], false)
  {
    TagsSplit();
    BoldBrPatterns();
    SubstituteBPass(h);
    ReplaceEachTagStep(h, TagsToReplace[1..], false, s1);
  }

  lemma SubstituteLoopCloseB(s1: string, x: string)
    requires s1 == "!@#b!@#br</b>" && x == "!@#b!@#br!@#/b!@#"
    ensures ReplaceEachTag(s1, TagsToReplace[1..][1..], false) == ReplaceEachTag(x, TagsToReplace[1..][1..][1..], false)
  {
    TagsSplit();
    BoldBrPatterns();
    SubstituteCloseBPass(s1);
    ReplaceEachTagStep(s1, TagsToReplace[1..][1..], false, x);
  }

  /** The passes for the later tags change neither string of the example. */
  lemma LoopLater(s: string, restore: bool)
    requires s == "!@#b!@#br!@#/b!@#" || s == "!@#b<br>/b!@#"
    ensures ReplaceEachTag(s, TagsToReplace[1..][1..][1..], restore) == s
  {
    TagsSplit();
    NoLaterLetters(s);
    LaterTagsAbsent(s);
    ReplaceEachTagAbsent(s, LaterTags, restore);
  }

  /** The as-written substitution turns `<b>br</b>` into `!@#b!@#br!@#/b!@#`. */
  lemma SubstituteAsWrittenBoldBr(html: string)
    requires html == "<b>br</b>"
    ensures SubstituteTagsAsWritten(html) == "!@#b!@#br!@#/b!@#"
  {
    var s1, x := "!@#b!@#br</b>", "!@#b!@#br!@#/b!@#";
    SubstituteLoopBr(html);
    SubstituteLoopB(html, s1);
    SubstituteLoopCloseB(s1, x);
    LoopLater(x, false);
  }

  lemma RestoreLoopBr(x: string, y: string)
    requires x == "!@#b!@#br!@#/b!@#" && y == "!@#b<br>/b!@#"
    ensures ReplaceEachTag(x, TagsToReplace, true) == ReplaceEachTag(y, TagsToReplace[1..], true)
  {
    TagsSplit();
    BoldBrPatterns();
    RestoreBrPass(x);
    ReplaceEachTagStep(x, TagsToReplace, true, y);
  }

  lemma RestoreLoopB(y: string)
    requires y == "!@#b<br>/b!@#"
    ensures ReplaceEachTag(y, TagsToReplace[1..], true) == ReplaceEachTag(y, TagsToReplace[1..][1..], true)
  {
    TagsSplit();
    BoldBrPatterns();
    RestoreMissPieces(y);
    RestoreMissPass(y, "!@#b!@#", "<b>", 4);
    ReplaceEachTagStep(y, TagsToReplace[1..], true, y);
  }

  lemma RestoreLoopCloseB(y: string)
    requires y == "!@#b<br>/b!@#"
    ensures ReplaceEachTag(y, TagsToReplace[1..][1..], true) == ReplaceEachTag(y, TagsToReplace[1..][1..][1..], true)
  {
    TagsSplit();
    BoldBrPatterns();
    RestoreMissPieces(y);
    RestoreMissPass(y, "!@#/b!@#", "</b>", 3);
    ReplaceEachTagStep(y, TagsToReplace[1..][1..], true, y);
  }

  /** The as-written restore turns `!@#b!@#br!@#/b!@#` into `!@#b<br>/b!@#`. */
  lemma RestoreAsWrittenBoldBr(x: string)
    requires x == "!@#b!@#br!@#/b!@#"
    ensures RestoreTagsAsWritten(x) == "!@#b<br>/b!@#"
  {
    var y := "!@#b<br>/b!@#";
    RestoreLoopBr(x, y);
    RestoreLoopB(y);
    RestoreLoopCloseB(y);
    LoopLater(y, true);
  }

  lemma BoldBrChanged()
    ensures "!@#b<br>/b!@#" != "<b>br</b>"
  {
    assert "!@#b<br>/b!@#"[0] != "<b>br</b>"[0];
  }

  /**
   * The as-written restore does not undo the as-written substitution: in
   * `<b>br</b>` the word `br` sits between two sentinels, and the `br` pass
   * of the restore matches `!@#br!@#` across their boundary before the `b`
   * pass runs.
   */
  lemma RestoreAsWrittenBreaksBoldBr(html: string)
    requires html == "<b>br</b>"
    ensures RestoreTagsAsWritten(SubstituteTagsAsWritten(html)) == "!@#b<br>/b!@#"
    ensures RestoreTagsAsWritten(SubstituteTagsAsWritten(html)) != html
  {
    SubstituteAsWrittenBoldBr(html);
    RestoreAsWrittenBoldBr("!@#b!@#br!@#/b!@#");
    BoldBrChanged();
  }

  // ---------------------------------------------------------------------
  // Corrected: a single left-to-right pass over all the tags at once.
  // ---------------------------------------------------------------------

  /** The first tag (in list order) whose pattern starts `s`. */
  function FirstMatch(s: string, tags: seq<string>, restore: bool): (r: Option<string>)
    ensures r.Some? ==> r.value in tags && StartsWith(s, Pattern(r.value, restore))
  {
    if tags == [] then None
    else if StartsWith(s, Pattern(tags[0], restore)) then Some(tags[0])
    else FirstMatch(s, tags[1..], restore)
  }

  /** When no match is found, no listed pattern starts `s`. */
  lemma {:induction false} FirstMatchNone(s: string, tags: seq<string>, restore: bool)
    requires FirstMatch(s, tags, restore).None?
    ensures forall t :: t in tags ==> !StartsWith(s, Pattern(t, restore))
    decreases |tags|
  {
    if tags != [] {
      FirstMatchNone(s, tags[1..], restore);
      assert forall t :: t in tags ==> t == tags[0] || t in tags[1..];
    }
  }

  /** One left-to-right pass: at each position the first listed pattern that starts there is replaced. */
  function ReplaceTagsOnce(s: string, tags: seq<string>, restore: bool): string
    decreases |s|
  {
    if s == [] then []
    else match FirstMatch(s, tags, restore)
      case Some(t) => Replacement(t, restore) + ReplaceTagsOnce(s[|Pattern(t, restore)|..], tags, restore)
      case None => [s[0]] + ReplaceTagsOnce(s[1..], tags, restore)
  }

  /** Where a tag's pattern is found, the pass emits its replacement and goes on behind the pattern. */
  lemma PassAtTag(s: string, tags: seq<string>, restore: bool, t: string)
    requires s != [] && FirstMatch(s, tags, restore) == Some(t)
    ensures ReplaceTagsOnce(s, tags, restore) == Replacement(t, restore) + ReplaceTagsOnce(s[|Pattern(t, restore)|..], tags, restore)
  {
  }

  /** Every `<tag>` becomes its sentinel. */
  function SubstituteTags(s: string): string {
    ReplaceTagsOnce(s, TagsToReplace, false)
  }

  /** Every sentinel becomes its `<tag>`. */
  function RestoreTags(s: string): string {
    ReplaceTagsOnce(s, TagsToReplace, true)
  }

  /** `s` contains the sentinel marker `!@#` somewhere. */
  predicate HasMarker(s: string)
    decreases |s|
  {
    |s| >= 3 && (s[..3] == Marker || HasMarker(s[1..]))
  }

  lemma {:induction false} NoMarkerSuffix(s: string, k: nat)
    requires k <= |s| && !HasMarker(s)
    ensures !HasMarker(s[k..])
    decreases k
  {
    if k > 0 {
      NoMarkerSuffix(s[1..], k - 1);
      assert s[1..][k - 1..] == s[k..];
    }
  }

  /** A tag name that contains neither `!` nor `>` cannot be confused with another one. */
  predicate PlainTag(t: string) {
    forall i :: 0 <= i < |t| ==> t[i] != '!' && t[i] != '>'
  }

  predicate PlainTags(tags: seq<string>) {
    forall t :: t in tags ==> PlainTag(t)
  }

  lemma TagsArePlain()
    ensures PlainTags(TagsToReplace)
  {
  }

  /** At most one tag's pattern starts a given string. */
  lemma PatternUnique(s: string, t: string, u: string, restore: bool)
    requires PlainTag(t) && PlainTag(u)
    requires StartsWith(s, Pattern(t, restore)) && StartsWith(s, Pattern(u, restore))
    ensures t == u
  {
    var k := if restore then 3 else 1;
    var pt, pu := Pattern(t, restore), Pattern(u, restore);
    assert pt[k..k + |t|] == t && pu[k..k + |u|] == u;
    if |t| < |u| {
      PrefixAgree(s, pt, pu, k + |t|);
      assert false;
    } else if |u| < |t| {
      PrefixAgree(s, pu, pt, k + |u|);
      assert false;
    } else {
      assert t == s[k..k + |t|] == u;
    }
  }

  lemma PrefixAgree(s: string, p: string, q: string, i: nat)
    requires StartsWith(s, p) && StartsWith(s, q) && i < |p| && i < |q|
    ensures p[i] == q[i]
  {
    assert p[i] == s[..|p|][i] == s[i] == s[..|q|][i];
  }

  /** A pass finds the tag whose replacement it has just produced. */
  lemma FirstMatchOfReplacement(t: string, rest: string, tags: seq<string>, restore: bool)
    requires PlainTags(tags) && t in tags
    ensures FirstMatch(Pattern(t, restore) + rest, tags, restore) == Some(t)
  {
    var s := Pattern(t, restore) + rest;
    assert s[..|Pattern(t, restore)|] == Pattern(t, restore);
    match FirstMatch(s, tags, restore)
    case Some(u) =>
      PatternUnique(s, t, u, restore);
    case None =>
      FirstMatchNone(s, tags, restore);
      assert false;
  }

  /** If the substitution of `y` starts with `@#`, then so does `y`. */
  lemma SubstituteHead(y: string, tags: seq<string>)
    requires StartsWith(ReplaceTagsOnce(y, tags, false), "@#")
    ensures StartsWith(y, "@#")
  {
    assert y != [];
    var r := ReplaceTagsOnce(y, tags, false);
    match FirstMatch(y, tags, false)
    case Some(t) =>
      assert r[0] == Sentinel(t)[0] == '!';
    case None =>
      var r1 := ReplaceTagsOnce(y[1..], tags, false);
      assert r == [y[0]] + r1;
      assert y[1..] != [];
      match FirstMatch(y[1..], tags, false)
      case Some(t) =>
        assert r1[0] == Sentinel(t)[0] == '!';
      case None =>
        assert r1[0] == y[1];
  }

  /** A pass that restores leaves a string without the marker unchanged. */
  lemma {:induction false} RestoreIgnoresUnmarked(s: string, tags: seq<string>)
    requires !HasMarker(s)
    ensures ReplaceTagsOnce(s, tags, true) == s
    decreases |s|
  {
    if s != [] {
      match FirstMatch(s, tags, true)
      case Some(t) =>
        assert false;
      case None =>
        NoMarkerSuffix(s, 1);
        RestoreIgnoresUnmarked(s[1..], tags);
        assert s == [s[0]] + s[1..];
    }
  }

  /** Restoring leaves a string without the marker unchanged. */
  lemma RestoreWithoutMarker(s: string)
    requires !HasMarker(s)
    ensures RestoreTags(s) == s
  {
    RestoreIgnoresUnmarked(s, TagsToReplace);
  }

  /** A text without the marker contains no sentinel, so a restoring `replacingOccurrences` changes nothing. */
  lemma {:induction false} ReplaceSentinelUnmarked(s: string, tag: string, rep: string)
    requires !HasMarker(s)
    ensures ReplaceAll(s, Sentinel(tag), rep) == s
    decreases |s|
  {
    var pat := Sentinel(tag);
    if |s| < |pat| {
      ReplaceAllShort(s, pat, rep);
    } else {
      assert s[..3] != pat[..3];
      assert exists k :: 0 <= k < 3 && s[k] != pat[k];
      var k :| 0 <= k < 3 && s[k] != pat[k];
      ReplaceAllMismatch(s, pat, rep, k);
      NoMarkerSuffix(s, 1);
      ReplaceSentinelUnmarked(s[1..], tag, rep);
      assert s == [s[0]] + s[1..];
    }
  }

  lemma {:induction false} ReplaceEachTagUnmarked(s: string, tags: seq<string>)
    requires !HasMarker(s)
    ensures ReplaceEachTag(s, tags, true) == s
    decreases |tags|
  {
    if tags != [] {
      ReplaceSentinelUnmarked(s, tags[0], OpenTag(tags[0]));
      ReplaceEachTagUnmarked(s, tags[1..]);
    }
  }

  /** The restore loop as written leaves a text without the marker unchanged. */
  lemma RestoreAsWrittenWithoutMarker(s: string)
    requires !HasMarker(s)
    ensures RestoreTagsAsWritten(s) == s
  {
    ReplaceEachTagUnmarked(s, TagsToReplace);
  }

  /** Behind a character that does not start the marker, substituted text never completes a sentinel. */
  lemma NoSentinelAfterChar(s: string, tags: seq<string>)
    requires s != [] && !HasMarker(s)
    ensures FirstMatch([s[0]] + ReplaceTagsOnce(s[1..], tags, false), tags, true).None?
  {
    var y := ReplaceTagsOnce(s[1..], tags, false);
    var w := [s[0]] + y;
    match FirstMatch(w, tags, true)
    case Some(t) =>
      assert w[..3] == Sentinel(t)[..3] == Marker;
      assert StartsWith(y, "@#") by {
        assert y[..2] == w[1..3];
      }
      SubstituteHead(s[1..], tags);
      assert false;
    case None =>
  }

  /** A substituted tag is restored, and the rest is handled after it. */
  lemma RestoreSentinel(t: string, y: string, tags: seq<string>)
    requires PlainTags(tags) && t in tags
    ensures ReplaceTagsOnce(Sentinel(t) + y, tags, true) == OpenTag(t) + ReplaceTagsOnce(y, tags, true)
  {
    FirstMatchOfReplacement(t, y, tags, true);
    assert (Sentinel(t) + y)[|Sentinel(t)|..] == y;
  }

  /** The step of the round trip where a tag starts the text. */
  lemma RoundTripAtTag(s: string, tags: seq<string>, t: string)
    requires PlainTags(tags) && s != [] && FirstMatch(s, tags, false) == Some(t)
    requires ReplaceTagsOnce(ReplaceTagsOnce(s[|OpenTag(t)|..], tags, false), tags, true) == s[|OpenTag(t)|..]
    ensures ReplaceTagsOnce(ReplaceTagsOnce(s, tags, false), tags, true) == s
  {
    var n := |OpenTag(t)|;
    var y := ReplaceTagsOnce(s[n..], tags, false);
    PassAtTag(s, tags, false, t);
    RestoreSentinel(t, y, tags);
    assert s == OpenTag(t) + s[n..] by {
      assert s[..n] == OpenTag(t);
      assert s == s[..n] + s[n..];
    }
  }

  /** The step of the round trip where no tag starts the text. */
  lemma RoundTripAtChar(s: string, tags: seq<string>)
    requires s != [] && !HasMarker(s) && FirstMatch(s, tags, false).None?
    requires ReplaceTagsOnce(ReplaceTagsOnce(s[1..], tags, false), tags, true) == s[1..]
    ensures ReplaceTagsOnce(ReplaceTagsOnce(s, tags, false), tags, true) == s
  {
    var y := ReplaceTagsOnce(s[1..], tags, false);
    assert ReplaceTagsOnce(s, tags, false) == [s[0]] + y;
    NoSentinelAfterChar(s, tags);
    assert ([s[0]] + y)[1..] == y;
    assert s == [s[0]] + s[1..];
  }

  /** For any list of plain tags, the restoring pass undoes the substituting pass on text without the marker. */
  lemma {:induction false} RestoreUndoesSubstitute(s: string, tags: seq<string>)
    requires PlainTags(tags) && !HasMarker(s)
    ensures ReplaceTagsOnce(ReplaceTagsOnce(s, tags, false), tags, true) == s
    decreases |s|
  {
    if s != [] {
      match FirstMatch(s, tags, false)
      case Some(t) =>
        NoMarkerSuffix(s, |OpenTag(t)|);
        RestoreUndoesSubstitute(s[|OpenTag(t)|..], tags);
        RoundTripAtTag(s, tags, t);
      case None =>
        NoMarkerSuffix(s, 1);
        RestoreUndoesSubstitute(s[1..], tags);
        RoundTripAtChar(s, tags);
    }
  }

  /** Restoring undoes substituting, for every text that does not already contain the marker. */
  lemma RestoreSubstitute(s: string)
    requires !HasMarker(s)
    ensures RestoreTags(SubstituteTags(s)) == s
  {
    TagsArePlain();
    RestoreUndoesSubstitute(s, TagsToReplace);
  }
}
