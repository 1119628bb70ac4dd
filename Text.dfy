/** The JavaScript string operations the point-of-sale screens rely on:
    `String.prototype.trim`, `toLowerCase` and `includes`. */
module Text {

  /** The characters `trim` removes: ECMAScript WhiteSpace (tab, vertical tab, form feed, space,
      no-break space, the Unicode space separators and the byte order mark) and LineTerminator
      (line feed, carriage return, line and paragraph separators). */
  predicate IsWhitespace(c: char)
  {
    c == ' ' || '\t' <= c <= '\r' || c == '\U{A0}' || c == '\U{1680}' || '\U{2000}' <= c <= '\U{200A}'
    || c == '\U{2028}' || c == '\U{2029}' || c == '\U{202F}' || c == '\U{205F}' || c == '\U{3000}'
    || c == '\U{FEFF}'
  }

  /** Empty or whitespace only. */
  predicate IsBlank(s: string)
  {
    forall i :: 0 <= i < |s| ==> IsWhitespace(s[i])
  }

  /** The index of the first non-whitespace character at or after `i` (or `|s|`). */
  function SkipWhitespace(s: string, i: nat): (k: nat)
    requires i <= |s|
    ensures i <= k <= |s|
    ensures forall j :: i <= j < k ==> IsWhitespace(s[j])
    ensures k == |s| || !IsWhitespace(s[k])
    decreases |s| - i
  {
    if i < |s| && IsWhitespace(s[i]) then SkipWhitespace(s, i + 1) else i
  }

  /** The index just after the last non-whitespace character of `s[lo..hi]` (or `lo`). */
  function BackOverWhitespace(s: string, lo: nat, hi: nat): (k: nat)
    requires lo <= hi <= |s|
    ensures lo <= k <= hi
    ensures forall j :: k <= j < hi ==> IsWhitespace(s[j])
    ensures k == lo || !IsWhitespace(s[k - 1])
    decreases hi - lo
  {
    if lo < hi && IsWhitespace(s[hi - 1]) then BackOverWhitespace(s, lo, hi - 1) else hi
  }

  /** `s.trim()`: whitespace removed at both ends. */
  function Trim(s: string): (r: string)
    ensures |r| <= |s|
    ensures r == [] || (!IsWhitespace(r[0]) && !IsWhitespace(r[|r| - 1]))
    ensures r == [] <==> IsBlank(s)
  {
    var a := SkipWhitespace(s, 0);
    s[a..BackOverWhitespace(s, a, |s|)]
  }

  /** `s.trim()` is a slice of `s`, and what is cut off at both ends is whitespace. */
  lemma {:induction false} TrimShape(s: string)
    ensures exists a ::
              && 0 <= a <= a + |Trim(s)| <= |s| && Trim(s) == s[a..a + |Trim(s)|]
              && IsBlank(s[..a]) && IsBlank(s[a + |Trim(s)|..])
  {
    var a := SkipWhitespace(s, 0);
    var b := BackOverWhitespace(s, a, |s|);
    assert Trim(s) == s[a..b];
    assert forall j :: 0 <= j < a ==> s[..a][j] == s[j];
    assert forall j :: 0 <= j < |s| - b ==> s[b..][j] == s[b + j];
  }

  /** Trimming twice is trimming once. */
  lemma {:induction false} TrimIdempotent(s: string)
    ensures Trim(Trim(s)) == Trim(s)
  {
    var r := Trim(s);
    assert SkipWhitespace(r, 0) == 0;
    if r != [] {
      assert BackOverWhitespace(r, 0, |r|) == |r|;
    }
  }

  /** `toLowerCase` on one character, for ASCII and Latin-1 letters (A-Z, À-Þ except ×). */
  function LowerChar(c: char): (d: char)
    ensures IsWhitespace(d) == IsWhitespace(c)
    ensures ('A' <= c <= 'Z') ==> d as int == c as int + 32
    ensures !('A' <= c <= 'Z') && !('\U{C0}' <= c <= '\U{DE}') ==> d == c
  {
    if ('A' <= c <= 'Z') || ('\U{C0}' <= c <= '\U{DE}' && c != '\U{D7}') then
      (c as int + 32) as char
    else
      c
  }

  /** `s.toLowerCase()`, character by character. */
  function ToLower(s: string): (r: string)
    ensures |r| == |s|
    ensures forall i :: 0 <= i < |s| ==> r[i] == LowerChar(s[i])
  {
    seq(|s|, i requires 0 <= i < |s| => LowerChar(s[i]))
  }

  /** Lower-casing is idempotent: a lower-cased letter is not upper-case any more. */
  lemma {:induction false} ToLowerIdempotent(s: string)
    ensures ToLower(ToLower(s)) == ToLower(s)
  {
  }

  /** Skipping whitespace finds the same index in a string and in its lower-cased form. */
  lemma {:induction false} SkipWhitespaceLower(s: string, i: nat)
    requires i <= |s|
    ensures SkipWhitespace(ToLower(s), i) == SkipWhitespace(s, i)
    decreases |s| - i
  {
    if i < |s| && IsWhitespace(s[i]) {
      SkipWhitespaceLower(s, i + 1);
    }
  }

  lemma {:induction false} BackOverWhitespaceLower(s: string, lo: nat, hi: nat)
    requires lo <= hi <= |s|
    ensures BackOverWhitespace(ToLower(s), lo, hi) == BackOverWhitespace(s, lo, hi)
    decreases hi - lo
  {
    if lo < hi && IsWhitespace(s[hi - 1]) {
      BackOverWhitespaceLower(s, lo, hi - 1);
    }
  }

  /** Trimming and lower-casing commute, because lower-casing maps whitespace to whitespace
      and nothing else to whitespace. */
  lemma {:induction false} TrimLowerCommute(s: string)
    ensures Trim(ToLower(s)) == ToLower(Trim(s))
  {
    var a := SkipWhitespace(s, 0);
    SkipWhitespaceLower(s, 0);
    BackOverWhitespaceLower(s, a, |s|);
    var b := BackOverWhitespace(s, a, |s|);
    assert Trim(ToLower(s)) == ToLower(s)[a..b];
    ToLowerSlice(s, a, b);
  }

  /** Lower-casing a slice is slicing the lower-cased string. */
  lemma {:induction false} ToLowerSlice(s: string, a: nat, b: nat)
    requires a <= b <= |s|
    ensures ToLower(s)[a..b] == ToLower(s[a..b])
  {
    assert forall i :: 0 <= i < b - a ==> ToLower(s)[a..b][i] == LowerChar(s[a..b][i]);
  }

  /** `s.trim().toLowerCase()`, the normalisation the case-insensitive lookups apply. */
  function Normalize(s: string): string
  {
    ToLower(Trim(s))
  }

  /** Normalising twice is normalising once. */
  lemma {:induction false} NormalizeIdempotent(s: string)
    ensures Normalize(Normalize(s)) == Normalize(s)
  {
    TrimLowerCommute(Trim(s));
    TrimIdempotent(s);
    ToLowerIdempotent(Trim(s));
  }

  /** `s.includes(sub)`: `sub` occurs in `s` at some position. */
  predicate Contains(s: string, sub: string)
  {
    exists i :: 0 <= i <= |s| && sub <= s[i..]
  }

  /** Every string contains the empty string and itself. */
  lemma {:induction false} ContainsTrivial(s: string)
    ensures Contains(s, "") && Contains(s, s)
  {
    assert "" <= s[0..];
    assert s <= s[0..];
  }

  /** A string contains its own trimmed form. */
  lemma {:induction false} TrimContained(s: string)
    ensures Contains(s, Trim(s))
  {
    var a := SkipWhitespace(s, 0);
    var b := BackOverWhitespace(s, a, |s|);
    assert Trim(s) == s[a..b];
    assert Trim(s) <= s[a..];
  }

  /** Lowercasing both sides keeps a containment. */
  lemma {:induction false} ContainsLower(s: string, sub: string)
    requires Contains(s, sub)
    ensures Contains(ToLower(s), ToLower(sub))
  {
    var i :| 0 <= i <= |s| && sub <= s[i..];
    assert ToLower(sub) <= ToLower(s)[i..];
  }

  /** The first non-whitespace index at or after `i` is the `k` that has only whitespace before it. */
  lemma {:induction false} SkipWhitespaceAt(s: string, i: nat, k: nat)
    requires i <= k <= |s|
    requires forall j :: i <= j < k ==> IsWhitespace(s[j])
    requires k == |s| || !IsWhitespace(s[k])
    ensures SkipWhitespace(s, i) == k
    decreases k - i
  {
    if i < k {
      SkipWhitespaceAt(s, i + 1, k);
    }
  }

  lemma {:induction false} BackOverWhitespaceAt(s: string, lo: nat, hi: nat, k: nat)
    requires lo <= k <= hi <= |s|
    requires forall j :: k <= j < hi ==> IsWhitespace(s[j])
    requires k == lo || !IsWhitespace(s[k - 1])
    ensures BackOverWhitespace(s, lo, hi) == k
    decreases hi - k
  {
    if k < hi {
      BackOverWhitespaceAt(s, lo, hi - 1, k);
    }
  }

  /** Whitespace added at either end is trimmed away. */
  lemma {:induction false} TrimPadded(x: string, s: string, y: string)
    requires IsBlank(x) && IsBlank(y)
    ensures Trim(x + s + y) == Trim(s)
  {
    if IsBlank(s) {
      BlankConcat(x, s, y);
    } else {
      TrimPaddedNonBlank(x, s, y);
    }
  }

  lemma {:induction false} TrimPaddedNonBlank(x: string, s: string, y: string)
    requires IsBlank(x) && IsBlank(y) && !IsBlank(s)
    ensures Trim(x + s + y) == Trim(s)
  {
    var a := SkipWhitespace(s, 0);
    var b := BackOverWhitespace(s, a, |s|);
    PaddedBounds(x, s, y, a, b);
    TrimBetweenPadding(x, s, y, a, b);
  }

  lemma {:induction false} TrimBetweenPadding(x: string, s: string, y: string, a: nat, b: nat)
    requires a == SkipWhitespace(s, 0) && b == BackOverWhitespace(s, a, |s|)
    requires SkipWhitespace(x + s + y, 0) == |x| + a
    requires BackOverWhitespace(x + s + y, |x| + a, |x + s + y|) == |x| + b
    requires (x + s + y)[|x| + a..|x| + b] == s[a..b]
    ensures Trim(x + s + y) == Trim(s)
  {
    TrimShifted(x + s + y, s, |x|, a, b);
  }

  /** `u` trims to the slice `s` trims to, moved `off` places to the right. */
  lemma {:induction false} TrimShifted(u: string, s: string, off: nat, a: nat, b: nat)
    requires a <= |s| && a == SkipWhitespace(s, 0) && b == BackOverWhitespace(s, a, |s|)
    requires off + a <= |u| && SkipWhitespace(u, 0) == off + a
    requires BackOverWhitespace(u, off + a, |u|) == off + b
    requires u[off + a..off + b] == s[a..b]
    ensures Trim(u) == Trim(s)
  {
  }

  /** Where trimming a padded string starts and stops, in terms of `s` alone. */
  lemma {:induction false} PaddedBounds(x: string, s: string, y: string, a: nat, b: nat)
    requires IsBlank(x) && IsBlank(y) && !IsBlank(s)
    requires a == SkipWhitespace(s, 0) && b == BackOverWhitespace(s, a, |s|)
    ensures a < |s| && SkipWhitespace(x + s + y, 0) == |x| + a
    ensures BackOverWhitespace(x + s + y, |x| + a, |x + s + y|) == |x| + b
    ensures (x + s + y)[|x| + a..|x| + b] == s[a..b]
  {
    PaddedSkip(x, s, y);
    assert a < |s|;
    PaddedBack(x, s, y, a);
    SliceOfMiddle(x, s, y, a, b);
  }

  lemma {:induction false} SliceOfMiddle(x: string, s: string, y: string, a: nat, b: nat)
    requires a <= b <= |s|
    ensures (x + s + y)[|x| + a..|x| + b] == s[a..b]
  {
    var u := x + s + y;
    forall j | 0 <= j < b - a ensures u[|x| + a..|x| + b][j] == s[a..b][j] {
      assert u[|x| + a + j] == s[a + j];
    }
  }

  lemma {:induction false} BlankConcat(x: string, s: string, y: string)
    requires IsBlank(x) && IsBlank(s) && IsBlank(y)
    ensures IsBlank(x + s + y)
  {
    var u := x + s + y;
    forall j | 0 <= j < |u| ensures IsWhitespace(u[j]) {
      if j < |x| { assert u[j] == x[j]; }
      else if j < |x| + |s| { assert u[j] == s[j - |x|]; }
      else { assert u[j] == y[j - |x| - |s|]; }
    }
  }

  lemma {:induction false} PaddedSkip(x: string, s: string, y: string)
    requires IsBlank(x) && !IsBlank(s)
    ensures SkipWhitespace(x + s + y, 0) == |x| + SkipWhitespace(s, 0)
  {
    var u := x + s + y;
    var a := SkipWhitespace(s, 0);
    assert a < |s|;
    assert u[|x| + a] == s[a];
    forall j | 0 <= j < |x| + a ensures IsWhitespace(u[j]) {
      if j < |x| { assert u[j] == x[j]; } else { assert u[j] == s[j - |x|]; }
    }
    SkipWhitespaceAt(u, 0, |x| + a);
  }

  lemma {:induction false} PaddedBack(x: string, s: string, y: string, a: nat)
    requires IsBlank(y) && a < |s| && !IsWhitespace(s[a])
    ensures BackOverWhitespace(x + s + y, |x| + a, |x + s + y|) == |x| + BackOverWhitespace(s, a, |s|)
  {
    var u := x + s + y;
    var b := BackOverWhitespace(s, a, |s|);
    assert b > a;
    assert u[|x| + b - 1] == s[b - 1];
    forall j | |x| + b <= j < |u| ensures IsWhitespace(u[j]) {
      if j < |x| + |s| { assert u[j] == s[j - |x|]; } else { assert u[j] == y[j - |x| - |s|]; }
    }
    BackOverWhitespaceAt(u, |x| + a, |u|, |x| + b);
  }

  /** Lower-casing the query first, or padding it, does not change its normalised form. */
  lemma {:induction false} NormalizeInsensitive(x: string, s: string, y: string)
    requires IsBlank(x) && IsBlank(y)
    ensures Normalize(x + s + y) == Normalize(s)
    ensures Normalize(ToLower(s)) == Normalize(s)
  {
    TrimPadded(x, s, y);
    TrimLowerCommute(s);
    ToLowerIdempotent(Trim(s));
  }
}
