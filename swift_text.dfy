/**
 * The Foundation string operations the library relies on: the character sets
 * `CharacterSet.newlines` and `CharacterSet.whitespacesAndNewlines`,
 * `trimmingCharacters(in:)`, `components(separatedBy:)`,
 * `split(separator:)`, `replacingOccurrences(of:with:)` and `Int(_:)`.
 */
module SwiftText {
  import opened Wrappers

  /** `CharacterSet.newlines`: U+000A through U+000D, U+0085, U+2028 and U+2029. */
  predicate IsNewline(c: char) {
    '\n' <= c <= '\r' || c == '\U{0085}' || c == '\U{2028}' || c == '\U{2029}'
  }

  /** Unicode general category Zs (space separators). */
  predicate IsSpaceSeparator(c: char) {
    c == ' ' || c == '\U{00A0}' || c == '\U{1680}' || '\U{2000}' <= c <= '\U{200A}'
    || c == '\U{202F}' || c == '\U{205F}' || c == '\U{3000}'
  }

  /** `CharacterSet.whitespacesAndNewlines`: the space separators, tab and the newlines. */
  predicate IsWhitespaceOrNewline(c: char) {
    IsSpaceSeparator(c) || c == '\t' || IsNewline(c)
  }

  /** Drops the longest prefix whose characters all satisfy `p`. */
  function DropPrefixWhere(s: string, p: char -> bool): (r: string)
    ensures |r| <= |s| && r == s[|s| - |r|..]
    ensures r == [] || !p(r[0])
    ensures forall i :: 0 <= i < |s| - |r| ==> p(s[i])
    decreases |s|
  {
    if s != [] && p(s[0]) then DropPrefixWhere(s[1..], p) else s
  }

  /** Drops the longest suffix whose characters all satisfy `p`. */
  function DropSuffixWhere(s: string, p: char -> bool): (r: string)
    ensures |r| <= |s| && r == s[..|r|]
    ensures r == [] || !p(r[|r| - 1])
    ensures forall i :: |r| <= i < |s| ==> p(s[i])
    decreases |s|
  {
    if s != [] && p(s[|s| - 1]) then DropSuffixWhere(s[..|s| - 1], p) else s
  }

  /** `trimmingCharacters(in:)` for the character set `p`. */
  function Trim(s: string, p: char -> bool): string {
    DropSuffixWhere(DropPrefixWhere(s, p), p)
  }

  /** Trimming leaves no character of `p` at either end. */
  lemma TrimEnds(s: string, p: char -> bool)
    ensures Trim(s, p) == [] || (!p(Trim(s, p)[0]) && !p(Trim(s, p)[|Trim(s, p)| - 1]))
  {
    var d := DropPrefixWhere(s, p);
    var r := DropSuffixWhere(d, p);
    if r != [] {
      assert r == d[..|r|];
      assert r[0] == d[0];
    }
  }

  /** Trimming empties exactly the strings made only of characters of `p`. */
  lemma TrimEmpty(s: string, p: char -> bool)
    ensures Trim(s, p) == [] <==> forall i :: 0 <= i < |s| ==> p(s[i])
  {
    var d := DropPrefixWhere(s, p);
    var r := DropSuffixWhere(d, p);
    var k := |s| - |d|;
    if r == [] {
      forall i | 0 <= i < |s| ensures p(s[i]) {
        if i >= k {
          assert s[i] == d[i - k];
        }
      }
    } else {
      assert d[0] == s[k];
    }
  }

  /** Trimming a string that neither starts nor ends with a character of `p` changes nothing. */
  lemma TrimNoOp(s: string, p: char -> bool)
    requires s == [] || (!p(s[0]) && !p(s[|s| - 1]))
    ensures Trim(s, p) == s
  {
  }

  /** `components(separatedBy:)` with a character set: splits at every separator, keeping empty pieces. */
  function ComponentsWhere(s: string, sep: char -> bool): (r: seq<string>)
    ensures |r| >= 1
    ensures forall k :: 0 <= k < |r| ==> forall i :: 0 <= i < |r[k]| ==> !sep(r[k][i])
    decreases |s|
  {
    if s == [] then [[]]
    else
      var rest := ComponentsWhere(s[1..], sep);
      if sep(s[0]) then [[]] + rest else [[s[0]] + rest[0]] + rest[1..]
  }

  /** `components(separatedBy: " ")` for a one-character separator. */
  function Components(s: string, sep: char): seq<string> {
    ComponentsWhere(s, c => c == sep)
  }

  /** Joins the pieces with `sep` between them. */
  function Join(parts: seq<string>, sep: char): string {
    if parts == [] then []
    else if |parts| == 1 then parts[0]
    else parts[0] + [sep] + Join(parts[1..], sep)
  }

  /** Concatenates the pieces (`joined()`). */
  function Concat(parts: seq<string>): string {
    if parts == [] then [] else parts[0] + Concat(parts[1..])
  }

  lemma ComponentsCons(s: string, sep: char)
    requires s != []
    ensures var rest := Components(s[1..], sep);
      Components(s, sep) == if s[0] == sep then [[]] + rest else [[s[0]] + rest[0]] + rest[1..]
  {
  }

  /** An empty first piece contributes only the separator that follows it. */
  lemma JoinEmptyFirst(rest: seq<string>, sep: char)
    requires |rest| >= 1
    ensures Join([[]] + rest, sep) == [sep] + Join(rest, sep)
  {
    assert ([[]] + rest)[1..] == rest;
  }

  /** A character put in front of the first piece comes first in the joined string. */
  lemma JoinGrowFirst(c: char, rest: seq<string>, sep: char)
    requires |rest| >= 1
    ensures Join([[c] + rest[0]] + rest[1..], sep) == [c] + Join(rest, sep)
  {
    var parts := [[c] + rest[0]] + rest[1..];
    if |rest| > 1 {
      assert parts[1..] == rest[1..];
    }
  }

  /** Splitting and re-joining with the same separator gives back the string. */
  lemma {:induction false} JoinComponents(s: string, sep: char)
    ensures Join(Components(s, sep), sep) == s
    decreases |s|
  {
    if s != [] {
      JoinComponents(s[1..], sep);
      var rest := Components(s[1..], sep);
      ComponentsCons(s, sep);
      if s[0] == sep {
        JoinEmptyFirst(rest, sep);
      } else {
        JoinGrowFirst(s[0], rest, sep);
      }
      assert s == [s[0]] + s[1..];
    }
  }

  /** The string with every occurrence of `c` removed. */
  function Without(s: string, c: char): (r: string)
    ensures c !in r
  {
    if s == [] then [] else (if s[0] == c then [] else [s[0]]) + Without(s[1..], c)
  }

  /** The pieces of `components(separatedBy:)`, put back together, are the string without its separators. */
  lemma {:induction false} ConcatComponents(s: string, sep: char)
    ensures Concat(Components(s, sep)) == Without(s, sep)
    decreases |s|
  {
    if s != [] {
      ConcatComponents(s[1..], sep);
      var rest := Components(s[1..], sep);
      ComponentsCons(s, sep);
      if s[0] == sep {
        assert ([[]] + rest)[1..] == rest;
      } else {
        var parts := [[s[0]] + rest[0]] + rest[1..];
        assert parts[1..] == rest[1..];
        assert Concat(rest) == rest[0] + Concat(rest[1..]);
      }
    }
  }

  /** Dropping empty pieces does not change their concatenation. */
  lemma {:induction false} ConcatNonEmpty(parts: seq<string>)
    ensures Concat(NonEmpty(parts)) == Concat(parts)
  {
    if parts != [] {
      ConcatNonEmpty(parts[1..]);
      var rest := NonEmpty(parts[1..]);
      assert Concat(parts) == parts[0] + Concat(parts[1..]);
      if parts[0] != [] {
        assert NonEmpty(parts) == [parts[0]] + rest;
        assert ([parts[0]] + rest)[1..] == rest;
        assert Concat([parts[0]] + rest) == parts[0] + Concat(rest);
      } else {
        assert NonEmpty(parts) == rest;
        assert parts[0] + Concat(parts[1..]) == Concat(parts[1..]);
      }
    }
  }

  /** No piece of `split(separator:)` is empty or contains the separator, and together they spell the string without separators. */
  lemma SplitNonEmptyPieces(s: string, sep: char)
    ensures forall k :: 0 <= k < |SplitNonEmpty(s, sep)| ==> SplitNonEmpty(s, sep)[k] != [] && sep !in SplitNonEmpty(s, sep)[k]
    ensures Concat(SplitNonEmpty(s, sep)) == Without(s, sep)
  {
    ConcatNonEmpty(Components(s, sep));
    ConcatComponents(s, sep);
    NonEmptyKeeps(Components(s, sep), sep);
  }

  lemma {:induction false} NonEmptyKeeps(parts: seq<string>, sep: char)
    requires forall k :: 0 <= k < |parts| ==> sep !in parts[k]
    ensures forall k :: 0 <= k < |NonEmpty(parts)| ==> sep !in NonEmpty(parts)[k]
  {
    if parts != [] {
      NonEmptyKeeps(parts[1..], sep);
    }
  }

  /** `split(separator:)`: the pieces of `components` with the empty ones dropped. */
  function SplitNonEmpty(s: string, sep: char): seq<string> {
    NonEmpty(Components(s, sep))
  }

  function NonEmpty(parts: seq<string>): (r: seq<string>)
    ensures forall k :: 0 <= k < |r| ==> r[k] != []
  {
    if parts == [] then []
    else if parts[0] == [] then NonEmpty(parts[1..])
    else [parts[0]] + NonEmpty(parts[1..])
  }

  /** `replacingOccurrences(of: pat, with: rep)`: left to right, non-overlapping. */
  function ReplaceAll(s: string, pat: string, rep: string): string
    requires pat != []
    decreases |s|
  {
    if |s| < |pat| then s
    else if s[..|pat|] == pat then rep + ReplaceAll(s[|pat|..], pat, rep)
    else [s[0]] + ReplaceAll(s[1..], pat, rep)
  }

  /** No replacement happens when some character of the pattern does not occur in `s`. */
  lemma {:induction false} ReplaceAllAbsentChar(s: string, pat: string, rep: string, j: nat)
    requires j < |pat| && pat[j] !in s
    ensures ReplaceAll(s, pat, rep) == s
    decreases |s|
  {
    if |s| >= |pat| {
      assert s[j] == s[..|pat|][j];
      ReplaceAllAbsentChar(s[1..], pat, rep, j);
      assert s == [s[0]] + s[1..];
    }
  }

  /** A prefix that does not contain the pattern's first character is copied unchanged. */
  lemma {:induction false} ReplaceAllSkip(a: string, b: string, pat: string, rep: string)
    requires pat != [] && pat[0] !in a
    ensures ReplaceAll(a + b, pat, rep) == a + ReplaceAll(b, pat, rep)
    decreases |a|
  {
    if a == [] {
      assert a + b == b;
    } else {
      var s := a + b;
      ReplaceAllSkip(a[1..], b, pat, rep);
      assert s[1..] == a[1..] + b;
      assert s[0] == a[0] && a[0] != pat[0];
      if |s| >= |pat| {
        ReplaceAllMismatch(s, pat, rep, 0);
      } else {
        ReplaceAllShort(s, pat, rep);
        ReplaceAllShort(b, pat, rep);
      }
      assert a == [a[0]] + a[1..];
    }
  }

  /** No match at the front: the first character is copied. */
  lemma ReplaceAllMismatch(s: string, pat: string, rep: string, k: nat)
    requires k < |pat| <= |s| && s[k] != pat[k]
    ensures ReplaceAll(s, pat, rep) == [s[0]] + ReplaceAll(s[1..], pat, rep)
  {
    assert s[..|pat|][k] == s[k];
  }

  /** A match at the front is replaced. */
  lemma ReplaceAllMatch(s: string, pat: string, rep: string, rest: string)
    requires pat != [] && s == pat + rest
    ensures ReplaceAll(s, pat, rep) == rep + ReplaceAll(rest, pat, rep)
  {
    assert s[..|pat|] == pat;
    assert s[|pat|..] == rest;
  }

  /** A string shorter than the pattern is copied unchanged. */
  lemma ReplaceAllShort(s: string, pat: string, rep: string)
    requires pat != [] && |s| < |pat|
    ensures ReplaceAll(s, pat, rep) == s
  {
  }

  predicate IsAsciiDigit(c: char) {
    '0' <= c <= '9'
  }

  predicate AllAsciiDigits(s: string) {
    forall i :: 0 <= i < |s| ==> IsAsciiDigit(s[i])
  }

  /** The value of a string of decimal digits, most significant first. */
  function DecimalValue(s: string): nat
    requires AllAsciiDigits(s)
  {
    if s == [] then 0 else DecimalValue(s[..|s| - 1]) * 10 + (s[|s| - 1] as int - '0' as int)
  }

  /** The decimal spelling of a natural number, with no leading zeros. */
  function DecimalText(n: nat): (r: string)
    ensures r != [] && AllAsciiDigits(r)
  {
    if n < 10 then [('0' as int + n) as char] else DecimalText(n / 10) + [('0' as int + n % 10) as char]
  }

  /** Reading back the decimal spelling gives the number. */
  lemma {:induction false} DecimalRoundTrip(n: nat)
    ensures DecimalValue(DecimalText(n)) == n
  {
    var t := DecimalText(n);
    if n >= 10 {
      DecimalRoundTrip(n / 10);
      assert t[..|t| - 1] == DecimalText(n / 10);
    }
  }

  const IntMax: int := 0x7FFF_FFFF_FFFF_FFFF
  const IntMin: int := -0x8000_0000_0000_0000

  /**
   * Swift's `Int(_ description:)`: an optional `+` or `-` followed by one or
   * more ASCII digits and nothing else; nil when malformed or outside the
   * 64-bit range.
   */
  function IntInit(s: string): (r: Option<int>)
    ensures r.Some? ==> IntMin <= r.value <= IntMax
  {
    var signed := |s| > 0 && (s[0] == '+' || s[0] == '-');
    var body := if signed then s[1..] else s;
    if body == [] || !AllAsciiDigits(body) then None
    else
      var v: int := if signed && s[0] == '-' then -(DecimalValue(body) as int) else DecimalValue(body);
      if IntMin <= v <= IntMax then Some(v) else None
  }

  /** A non-empty digit string parses to its value when the value fits in 64 bits. */
  lemma IntInitDigits(s: string)
    requires s != [] && AllAsciiDigits(s)
    ensures IntInit(s) == if DecimalValue(s) <= IntMax then Some(DecimalValue(s)) else None
  {
    assert s[0] != '+' && s[0] != '-' by { assert IsAsciiDigit(s[0]); }
  }
}
