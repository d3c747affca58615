/**
 * The JavaScript string operations the bot relies on, as functions over
 * `string` (a sequence of UTF-16 code units is approximated by `seq<char>`):
 * `trim`, `toLowerCase`, `replace(/\D/g, '')` and `includes`.
 */
module Strings {

  /** The code units `String.prototype.trim` removes: ECMAScript's WhiteSpace and LineTerminator. */
  predicate IsWhitespace(c: char) {
    || c == ' ' || c == '\t' || c == '\n' || c == '\r'
    || c == '\U{000B}' || c == '\U{000C}' || c == '\U{00A0}' || c == '\U{1680}'
    || ('\U{2000}' <= c <= '\U{200A}')
    || c == '\U{2028}' || c == '\U{2029}' || c == '\U{202F}' || c == '\U{205F}'
    || c == '\U{3000}' || c == '\U{FEFF}'
  }

  ghost predicate AllWhitespace(s: string) {
    forall i :: 0 <= i < |s| ==> IsWhitespace(s[i])
  }

  /** Drops the leading whitespace of `s`. */
  function TrimStart(s: string): string {
    if |s| > 0 && IsWhitespace(s[0]) then TrimStart(s[1..]) else s
  }

  /** Drops the trailing whitespace of `s`. */
  function TrimEnd(s: string): string {
    if |s| > 0 && IsWhitespace(s[|s| - 1]) then TrimEnd(s[..|s| - 1]) else s
  }

  /** `TrimStart(s)` is the suffix of `s` after its longest all-whitespace prefix. */
  lemma {:induction false} TrimStartSpec(s: string)
    ensures var r := TrimStart(s);
      && |r| <= |s| && r == s[|s| - |r|..]
      && AllWhitespace(s[..|s| - |r|])
      && (r == [] || !IsWhitespace(r[0]))
  {
    if |s| > 0 && IsWhitespace(s[0]) {
      TrimStartSpec(s[1..]);
      var r := TrimStart(s[1..]);
      assert s[..|s| - |r|] == [s[0]] + s[1..][..|s| - 1 - |r|];
    }
  }

  /** `TrimEnd(s)` is the prefix of `s` before its longest all-whitespace suffix. */
  lemma {:induction false} TrimEndSpec(s: string)
    ensures var r := TrimEnd(s);
      && |r| <= |s| && r == s[..|r|]
      && AllWhitespace(s[|r|..])
      && (r == [] || !IsWhitespace(r[|r| - 1]))
  {
    if |s| > 0 && IsWhitespace(s[|s| - 1]) {
      TrimEndSpec(s[..|s| - 1]);
      var r := TrimEnd(s[..|s| - 1]);
      assert s[|r|..] == s[..|s| - 1][|r|..] + [s[|s| - 1]];
    }
  }

  /** `String.prototype.trim`. */
  function Trim(s: string): string {
    TrimEnd(TrimStart(s))
  }

  /** `toLowerCase` on one code unit, for the ASCII letters. */
  function LowerChar(c: char): char {
    if 'A' <= c <= 'Z' then (c as int - 'A' as int + 'a' as int) as char else c
  }

  /** `String.prototype.toLowerCase`, restricted to ASCII case mapping. */
  function ToLower(s: string): (r: string)
    ensures |r| == |s|
    ensures forall i :: 0 <= i < |s| ==> r[i] == LowerChar(s[i])
  {
    if s == [] then [] else [LowerChar(s[0])] + ToLower(s[1..])
  }

  /** The class `\d` of a JavaScript regular expression without the `u` flag. */
  predicate IsDigit(c: char) {
    '0' <= c <= '9'
  }

  /** `s.replace(/\D/g, '')`: the digits of `s`, in order. */
  function StripNonDigits(s: string): (r: string)
    ensures |r| <= |s|
    ensures forall i :: 0 <= i < |r| ==> IsDigit(r[i])
  {
    if s == [] then []
    else (if IsDigit(s[0]) then [s[0]] else []) + StripNonDigits(s[1..])
  }

  /** `needle` occurs in `hay` starting at index `i`. */
  predicate OccursAt(hay: string, needle: string, i: int) {
    0 <= i && i + |needle| <= |hay| && hay[i..i + |needle|] == needle
  }

  /** `hay.includes(needle)`: some occurrence of `needle` in `hay` exists. */
  function Contains(hay: string, needle: string): (b: bool)
    ensures b <==> exists i :: OccursAt(hay, needle, i)
    decreases |hay|
  {
    if needle <= hay then
      assert OccursAt(hay, needle, 0);
      true
    else if |hay| == 0 then
      false
    else
      var b := Contains(hay[1..], needle);
      assert forall i :: OccursAt(hay[1..], needle, i) ==> OccursAt(hay, needle, i + 1);
      assert forall i :: OccursAt(hay, needle, i) ==> OccursAt(hay[1..], needle, i - 1);
      b
  }

  /** Removing everything that is not a digit commutes with concatenation. */
  lemma {:induction false} StripNonDigitsAppend(a: string, b: string)
    ensures StripNonDigits(a + b) == StripNonDigits(a) + StripNonDigits(b)
  {
    if a == [] {
      assert a + b == b;
    } else {
      assert (a + b)[0] == a[0];
      assert (a + b)[1..] == a[1..] + b;
      StripNonDigitsAppend(a[1..], b);
    }
  }

  /** A string made only of digits is its own digit string. */
  lemma {:induction false} StripNonDigitsOfDigits(s: string)
    requires forall i :: 0 <= i < |s| ==> IsDigit(s[i])
    ensures StripNonDigits(s) == s
  {
    if s != [] {
      StripNonDigitsOfDigits(s[1..]);
    }
  }

  /** A string without digits, such as formatting (`+`, spaces, dashes, parentheses), strips to the empty string. */
  lemma {:induction false} StripNonDigitsOfNonDigits(s: string)
    requires forall i :: 0 <= i < |s| ==> !IsDigit(s[i])
    ensures StripNonDigits(s) == []
  {
    if s != [] {
      StripNonDigitsOfNonDigits(s[1..]);
    }
  }

  /** Whitespace holds no digits. */
  lemma {:induction false} WhitespaceHasNoDigits(w: string)
    requires AllWhitespace(w)
    ensures StripNonDigits(w) == []
  {
    assert forall i :: 0 <= i < |w| ==> IsWhitespace(w[i]) && !IsDigit(w[i]);
    StripNonDigitsOfNonDigits(w);
  }

  /** Leading whitespace carries no digits. */
  lemma {:induction false} StripNonDigitsOfTrimStart(s: string)
    ensures StripNonDigits(TrimStart(s)) == StripNonDigits(s)
  {
    TrimStartSpec(s);
    var t := TrimStart(s);
    var w := s[..|s| - |t|];
    assert s == w + t;
    StripNonDigitsAppend(w, t);
    WhitespaceHasNoDigits(w);
  }

  /** Trailing whitespace carries no digits. */
  lemma {:induction false} StripNonDigitsOfTrimEnd(s: string)
    ensures StripNonDigits(TrimEnd(s)) == StripNonDigits(s)
  {
    TrimEndSpec(s);
    var t := TrimEnd(s);
    var w := s[|t|..];
    assert s == t + w;
    StripNonDigitsAppend(t, w);
    WhitespaceHasNoDigits(w);
  }

  /** Surrounding whitespace carries no digits, so trimming never changes the digits of a string. */
  lemma {:induction false} StripNonDigitsOfTrim(s: string)
    ensures StripNonDigits(Trim(s)) == StripNonDigits(s)
  {
    StripNonDigitsOfTrimStart(s);
    StripNonDigitsOfTrimEnd(TrimStart(s));
  }

  /** A string with no uppercase letter and no whitespace at either end is left alone by `trim(toLowerCase(.))`. */
  lemma {:induction false} TrimToLowerKeepsPlain(s: string)
    requires forall i :: 0 <= i < |s| ==> !('A' <= s[i] <= 'Z')
    requires s == [] || (!IsWhitespace(s[0]) && !IsWhitespace(s[|s| - 1]))
    ensures Trim(ToLower(s)) == s
  {
  }

  /** `TrimStart` removes exactly a whitespace prefix in front of a non-whitespace character. */
  lemma {:induction false} TrimStartAfterWhitespace(w: string, x: string)
    requires AllWhitespace(w)
    requires x != [] && !IsWhitespace(x[0])
    ensures TrimStart(w + x) == x
  {
    var s := w + x;
    TrimStartSpec(s);
    assert s[|w|] == x[0];
    assert forall i :: 0 <= i < |w| ==> IsWhitespace(s[i]);
  }

  /** `TrimEnd` removes exactly a whitespace suffix behind a non-whitespace character. */
  lemma {:induction false} TrimEndBeforeWhitespace(x: string, w: string)
    requires AllWhitespace(w)
    requires x != [] && !IsWhitespace(x[|x| - 1])
    ensures TrimEnd(x + w) == x
  {
    var s := x + w;
    TrimEndSpec(s);
    assert s[|x| - 1] == x[|x| - 1];
    assert forall i :: |x| <= i < |s| ==> IsWhitespace(s[i]);
  }

  /** Whitespace around a word without whitespace at its ends is removed by `trim`, and only that whitespace. */
  lemma {:induction false} TrimSurrounded(w1: string, t: string, w2: string)
    requires AllWhitespace(w1) && AllWhitespace(w2)
    requires t != [] && !IsWhitespace(t[0]) && !IsWhitespace(t[|t| - 1])
    ensures Trim(w1 + t + w2) == t
  {
    assert w1 + t + w2 == w1 + (t + w2);
    TrimStartAfterWhitespace(w1, t + w2);
    TrimEndBeforeWhitespace(t, w2);
  }
}
