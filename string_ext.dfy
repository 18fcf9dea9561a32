/** The `String` extension: `digits` and `removeExtraSpaces`. */
module StringExt {
  import opened SwiftText

  /** Decimal digits; only the ASCII digits are modelled. */
  predicate IsDecimalDigit(c: char) {
    IsAsciiDigit(c)
  }

  /** `digits`: the pieces between non-digit characters, joined back together. */
  function Digits(s: string): (r: string)
    ensures AllAsciiDigits(r)
  {
    var parts := ComponentsWhere(s, c => !IsDecimalDigit(c));
    ConcatOfDigitPieces(parts);
    Concat(parts)
  }

  lemma {:induction false} ConcatOfDigitPieces(parts: seq<string>)
    requires forall k :: 0 <= k < |parts| ==> forall i :: 0 <= i < |parts[k]| ==> IsAsciiDigit(parts[k][i])
    ensures AllAsciiDigits(Concat(parts))
  {
    if parts != [] {
      ConcatOfDigitPieces(parts[1..]);
    }
  }

  /** Reference definition: the digits of `s`, in order. */
  function KeepDigits(s: string): (r: string)
    ensures AllAsciiDigits(r)
  {
    if s == [] then []
    else if IsDecimalDigit(s[0]) then [s[0]] + KeepDigits(s[1..])
    else KeepDigits(s[1..])
  }

  /** `digits` keeps exactly the digit characters, in their original order. */
  lemma {:induction false} DigitsKeepsDigitsInOrder(s: string)
    ensures Digits(s) == KeepDigits(s)
    decreases |s|
  {
    if s != [] {
      DigitsKeepsDigitsInOrder(s[1..]);
      var nd := (c: char) => !IsDecimalDigit(c);
      var rest := ComponentsWhere(s[1..], nd);
      assert Digits(s[1..]) == Concat(rest);
      if IsDecimalDigit(s[0]) {
        var parts := [[s[0]] + rest[0]] + rest[1..];
        assert ComponentsWhere(s, nd) == parts;
        assert Concat(parts) == [s[0]] + rest[0] + Concat(rest[1..]);
        assert Concat(rest) == rest[0] + Concat(rest[1..]);
      } else {
        assert ComponentsWhere(s, nd) == [[]] + rest;
        assert Concat([[]] + rest) == Concat(rest);
      }
    }
  }

  /** The digits of a concatenation are the concatenation of the digits. */
  lemma {:induction false} KeepDigitsAppend(a: string, b: string)
    ensures KeepDigits(a + b) == KeepDigits(a) + KeepDigits(b)
    decreases |a|
  {
    if a != [] {
      KeepDigitsAppend(a[1..], b);
      assert (a + b)[1..] == a[1..] + b;
    } else {
      assert a + b == b;
    }
  }

  /** A string made only of digits is returned unchanged. */
  lemma {:induction false} DigitsOfDigitString(s: string)
    requires AllAsciiDigits(s)
    ensures Digits(s) == s
    decreases |s|
  {
    DigitsKeepsDigitsInOrder(s);
    if s != [] {
      DigitsOfDigitString(s[1..]);
      DigitsKeepsDigitsInOrder(s[1..]);
    }
  }

  /** `digits` is idempotent. */
  lemma DigitsIdempotent(s: string)
    ensures Digits(Digits(s)) == Digits(s)
  {
    DigitsOfDigitString(Digits(s));
  }

  /** `digits` is empty exactly when the string contains no digit. */
  lemma {:induction false} DigitsEmpty(s: string)
    ensures Digits(s) == [] <==> forall i :: 0 <= i < |s| ==> !IsDecimalDigit(s[i])
    decreases |s|
  {
    DigitsKeepsDigitsInOrder(s);
    if s != [] {
      DigitsEmpty(s[1..]);
      DigitsKeepsDigitsInOrder(s[1..]);
      if forall i :: 0 <= i < |s| ==> !IsDecimalDigit(s[i]) {
        assert forall i :: 0 <= i < |s[1..]| ==> !IsDecimalDigit(s[1..][i]) by {
          forall i | 0 <= i < |s[1..]| ensures !IsDecimalDigit(s[1..][i]) {
            assert s[1..][i] == s[i + 1];
          }
        }
      }
      if !IsDecimalDigit(s[0]) && Digits(s) == [] {
        forall i | 0 <= i < |s| ensures !IsDecimalDigit(s[i]) {
          if i > 0 {
            assert s[i] == s[1..][i - 1];
          }
        }
      }
    }
  }

  /** ICU's `\s` (`[\t\n\f\r\p{Z}]`) together with `\n`: the class of the regex `[\s\n]+`. */
  predicate IsRegexSpace(c: char) {
    c == '\t' || c == '\n' || c == '\U{000C}' || c == '\r'
    || IsSpaceSeparator(c) || c == '\U{2028}' || c == '\U{2029}'
  }

  /** `removeExtraSpaces`: every maximal run of `[\s\n]+` becomes one space. */
  function RemoveExtraSpaces(s: string): string
    decreases |s|
  {
    if s == [] then []
    else if IsRegexSpace(s[0]) then " " + RemoveExtraSpaces(DropPrefixWhere(s, IsRegexSpace))
    else [s[0]] + RemoveExtraSpaces(s[1..])
  }

  /** The output starts with the input's first character when that is not whitespace. */
  lemma RemoveExtraSpacesHead(s: string)
    requires s != [] && !IsRegexSpace(s[0])
    ensures RemoveExtraSpaces(s) != [] && RemoveExtraSpaces(s)[0] == s[0]
  {
  }

  predicate NoAdjacentSpaces(r: string) {
    forall i :: 0 <= i < |r| - 1 ==> !(IsRegexSpace(r[i]) && IsRegexSpace(r[i + 1]))
  }

  /** The output's only whitespace character is the plain space, and no two whitespace characters are adjacent. */
  lemma {:induction false} RemoveExtraSpacesShape(s: string)
    ensures NoAdjacentSpaces(RemoveExtraSpaces(s))
    ensures forall i :: 0 <= i < |RemoveExtraSpaces(s)| && IsRegexSpace(RemoveExtraSpaces(s)[i]) ==> RemoveExtraSpaces(s)[i] == ' '
    decreases |s|
  {
    if s != [] {
      var r := RemoveExtraSpaces(s);
      if IsRegexSpace(s[0]) {
        var d := DropPrefixWhere(s, IsRegexSpace);
        RemoveExtraSpacesShape(d);
        if d != [] {
          RemoveExtraSpacesHead(d);
        }
        assert r == " " + RemoveExtraSpaces(d);
        forall i | 0 <= i < |r| && IsRegexSpace(r[i]) ensures r[i] == ' ' {
          if i > 0 { assert r[i] == RemoveExtraSpaces(d)[i - 1]; }
        }
      } else {
        RemoveExtraSpacesShape(s[1..]);
        assert r == [s[0]] + RemoveExtraSpaces(s[1..]);
        forall i | 0 <= i < |r| && IsRegexSpace(r[i]) ensures r[i] == ' ' {
          assert i > 0;
          assert r[i] == RemoveExtraSpaces(s[1..])[i - 1];
        }
      }
    }
  }

  /** The non-whitespace characters, in order. */
  function NonSpace(s: string): string {
    if s == [] then []
    else if IsRegexSpace(s[0]) then NonSpace(s[1..])
    else [s[0]] + NonSpace(s[1..])
  }

  lemma {:induction false} NonSpaceOfSpaces(s: string, k: nat)
    requires k <= |s|
    requires forall i :: 0 <= i < k ==> IsRegexSpace(s[i])
    ensures NonSpace(s) == NonSpace(s[k..])
    decreases k
  {
    if k > 0 {
      NonSpaceOfSpaces(s[1..], k - 1);
      assert s[1..][k - 1..] == s[k..];
    }
  }

  /** Non-whitespace characters are all kept, in order. */
  lemma {:induction false} RemoveExtraSpacesKeepsText(s: string)
    ensures NonSpace(RemoveExtraSpaces(s)) == NonSpace(s)
    decreases |s|
  {
    if s != [] {
      if IsRegexSpace(s[0]) {
        var d := DropPrefixWhere(s, IsRegexSpace);
        RemoveExtraSpacesKeepsText(d);
        NonSpaceOfSpaces(s, |s| - |d|);
        assert (" " + RemoveExtraSpaces(d))[1..] == RemoveExtraSpaces(d);
      } else {
        RemoveExtraSpacesKeepsText(s[1..]);
        assert ([s[0]] + RemoveExtraSpaces(s[1..]))[1..] == RemoveExtraSpaces(s[1..]);
      }
    }
  }

  /** Applying `removeExtraSpaces` twice is the same as applying it once. */
  lemma {:induction false} RemoveExtraSpacesIdempotent(s: string)
    ensures RemoveExtraSpaces(RemoveExtraSpaces(s)) == RemoveExtraSpaces(s)
    decreases |s|
  {
    if s != [] {
      if IsRegexSpace(s[0]) {
        var d := DropPrefixWhere(s, IsRegexSpace);
        var t := RemoveExtraSpaces(d);
        RemoveExtraSpacesIdempotent(d);
        var u := " " + t;
        if d != [] {
          RemoveExtraSpacesHead(d);
          assert DropPrefixWhere(u, IsRegexSpace) == t by {
            assert u[1..] == t;
            assert DropPrefixWhere(u[1..], IsRegexSpace) == t;
          }
        } else {
          assert u == " ";
          assert DropPrefixWhere(u, IsRegexSpace) == [] by {
            assert DropPrefixWhere(u[1..], IsRegexSpace) == [];
          }
        }
      } else {
        RemoveExtraSpacesIdempotent(s[1..]);
        var u := [s[0]] + RemoveExtraSpaces(s[1..]);
        assert u[1..] == RemoveExtraSpaces(s[1..]);
      }
    }
  }

  /** A leading run of whitespace becomes one space. */
  lemma RemoveExtraSpacesAtSpace(s: string)
    requires s != [] && IsRegexSpace(s[0])
    ensures RemoveExtraSpaces(s) == " " + RemoveExtraSpaces(DropPrefixWhere(s, IsRegexSpace))
  {
  }

  /** Any other leading character is copied. */
  lemma RemoveExtraSpacesAtChar(s: string)
    requires s != [] && !IsRegexSpace(s[0])
    ensures RemoveExtraSpaces(s) == [s[0]] + RemoveExtraSpaces(s[1..])
  {
  }

  /**
   * A reference definition that looks at one character at a time: whitespace
   * followed by more whitespace is dropped, and the last whitespace of a run
   * becomes a space.
   */
  function CollapseRuns(s: string): string
    decreases |s|
  {
    if s == [] then []
    else if !IsRegexSpace(s[0]) then [s[0]] + CollapseRuns(s[1..])
    else if |s| > 1 && IsRegexSpace(s[1]) then CollapseRuns(s[1..])
    else " " + CollapseRuns(s[1..])
  }

  /** A run of whitespace in front of `b` gives one space. */
  lemma {:induction false} CollapseRunsRun(w: string, b: string)
    requires w != [] && forall i :: 0 <= i < |w| ==> IsRegexSpace(w[i])
    requires b == [] || !IsRegexSpace(b[0])
    ensures CollapseRuns(w + b) == " " + CollapseRuns(b)
    decreases |w|
  {
    assert (w + b)[1..] == w[1..] + b;
    if |w| > 1 {
      assert (w + b)[1] == w[1];
      CollapseRunsRun(w[1..], b);
    } else {
      assert w[1..] + b == b;
    }
  }

  /** No run of whitespace spans the end of `a` when `a` ends with another character, so the two parts are handled apart. */
  lemma {:induction false} CollapseRunsAppend(a: string, t: string)
    requires a == [] || !IsRegexSpace(a[|a| - 1])
    ensures CollapseRuns(a + t) == CollapseRuns(a) + CollapseRuns(t)
    decreases |a|
  {
    if a == [] {
      assert a + t == t;
    } else {
      assert |a| > 1 ==> a[1..][|a| - 2] == a[|a| - 1];
      CollapseRunsAppend(a[1..], t);
      CollapseRunsAppendStep(a, t);
    }
  }

  /** One step of `CollapseRunsAppend`: the first character of `a` is handled the same way in `a` and in `a + t`. */
  lemma CollapseRunsAppendStep(a: string, t: string)
    requires a != [] && (|a| == 1 ==> !IsRegexSpace(a[0]))
    requires CollapseRuns(a[1..] + t) == CollapseRuns(a[1..]) + CollapseRuns(t)
    ensures CollapseRuns(a + t) == CollapseRuns(a) + CollapseRuns(t)
  {
    var s := a + t;
    assert s[0] == a[0] && s[1..] == a[1..] + t;
    assert |a| > 1 ==> s[1] == a[1];
    var head := CollapseHead(a);
    assert CollapseHead(s) == head;
    CollapseRunsUnfold(a);
    CollapseRunsUnfold(s);
    AppendAssociates(head, CollapseRuns(a[1..]), CollapseRuns(t));
  }

  /** What `CollapseRuns` emits for the first character of `s`. */
  function CollapseHead(s: string): string
    requires s != []
  {
    if !IsRegexSpace(s[0]) then [s[0]]
    else if |s| > 1 && IsRegexSpace(s[1]) then []
    else " "
  }

  lemma CollapseRunsUnfold(s: string)
    requires s != []
    ensures CollapseRuns(s) == CollapseHead(s) + CollapseRuns(s[1..])
  {
  }

  lemma AppendAssociates(x: string, y: string, z: string)
    ensures x + (y + z) == (x + y) + z
  {
  }

  /** `removeExtraSpaces` agrees with the character-by-character reference on every input. */
  lemma {:induction false} RemoveExtraSpacesIsCollapseRuns(s: string)
    ensures RemoveExtraSpaces(s) == CollapseRuns(s)
    decreases |s|
  {
    if s != [] {
      if IsRegexSpace(s[0]) {
        var d := DropPrefixWhere(s, IsRegexSpace);
        var k := |s| - |d|;
        assert k > 0 by {
          assert d == DropPrefixWhere(s[1..], IsRegexSpace);
        }
        assert s == s[..k] + d;
        CollapseRunsRun(s[..k], d);
        RemoveExtraSpacesAtSpace(s);
        RemoveExtraSpacesIsCollapseRuns(d);
      } else {
        RemoveExtraSpacesAtChar(s);
        RemoveExtraSpacesIsCollapseRuns(s[1..]);
      }
    }
  }

  /** Each maximal run of whitespace, whatever its length and characters, becomes exactly one space. */
  lemma RemoveExtraSpacesCollapse(a: string, w: string, b: string)
    requires w != [] && forall i :: 0 <= i < |w| ==> IsRegexSpace(w[i])
    requires a == [] || !IsRegexSpace(a[|a| - 1])
    requires b == [] || !IsRegexSpace(b[0])
    ensures RemoveExtraSpaces(a + w + b) == RemoveExtraSpaces(a) + " " + RemoveExtraSpaces(b)
  {
    assert CollapseRuns(a + w + b) == CollapseRuns(a) + " " + CollapseRuns(b) by {
      CollapseRunsCollapse(a, w, b);
    }
    RemoveExtraSpacesIsCollapseRuns(a + w + b);
    RemoveExtraSpacesIsCollapseRuns(a);
    RemoveExtraSpacesIsCollapseRuns(b);
  }

  lemma CollapseRunsCollapse(a: string, w: string, b: string)
    requires w != [] && forall i :: 0 <= i < |w| ==> IsRegexSpace(w[i])
    requires a == [] || !IsRegexSpace(a[|a| - 1])
    requires b == [] || !IsRegexSpace(b[0])
    ensures CollapseRuns(a + w + b) == CollapseRuns(a) + " " + CollapseRuns(b)
  {
    assert a + w + b == a + (w + b);
    CollapseRunsAppend(a, w + b);
    CollapseRunsRun(w, b);
    AppendAssociates(CollapseRuns(a), " ", CollapseRuns(b));
  }

  /** A string with no whitespace is unchanged. */
  lemma {:induction false} RemoveExtraSpacesNoSpace(s: string)
    requires forall i :: 0 <= i < |s| ==> !IsRegexSpace(s[i])
    ensures RemoveExtraSpaces(s) == s
    decreases |s|
  {
    if s != [] {
      RemoveExtraSpacesNoSpace(s[1..]);
      assert s == [s[0]] + s[1..];
    }
  }
}
