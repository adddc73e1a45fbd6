/** Character classes and string operations shared by the pages: the ASCII
    classes of the source's regular expressions, JavaScript white space,
    `slice`, `trim`, `replace(/\D/g, '')`, and the ", "-joined address
    strings the checkout sends. */
module Text {

  predicate IsDigit(c: char) {
    '0' <= c <= '9'
  }

  /** The class `[a-z0-9]`. */
  predicate IsLowerAlnum(c: char) {
    'a' <= c <= 'z' || IsDigit(c)
  }

  /** `[a-f0-9]` under the `i` flag: ASCII hex digits of either case. */
  predicate IsHexDigit(c: char) {
    IsDigit(c) || 'a' <= c <= 'f' || 'A' <= c <= 'F'
  }

  /** The characters JavaScript's `\s` and `String.prototype.trim` treat as
      white space: WhiteSpace and LineTerminator of ECMAScript. */
  predicate IsWhitespace(c: char) {
    || c == '\t' || c == '\n' || c == '\U{000B}' || c == '\U{000C}' || c == '\r'
    || c == ' ' || c == '\U{00A0}' || c == '\U{1680}'
    || ('\U{2000}' <= c <= '\U{200A}')
    || c == '\U{2028}' || c == '\U{2029}' || c == '\U{202F}' || c == '\U{205F}'
    || c == '\U{3000}' || c == '\U{FEFF}'
  }

  predicate AllDigits(s: string) {
    forall i :: 0 <= i < |s| ==> IsDigit(s[i])
  }

  /** `toLowerCase` restricted to ASCII: other characters are left alone. */
  function ToLowerAscii(c: char): (d: char)
    ensures 'A' <= c <= 'Z' ==> 'a' <= d <= 'z'
    ensures !('A' <= c <= 'Z') ==> d == c
  {
    if 'A' <= c <= 'Z' then (c as int + 32) as char else c
  }

  function Lower(s: string): (r: string)
    ensures |r| == |s|
    ensures forall i :: 0 <= i < |s| ==> r[i] == ToLowerAscii(s[i])
  {
    seq(|s|, i requires 0 <= i < |s| => ToLowerAscii(s[i]))
  }

  /** `replace(/\D/g, '')`: the digits of `s`, in order. */
  function DigitsOnly(s: string): (r: string)
    ensures |r| <= |s|
    ensures AllDigits(r)
  {
    if s == [] then []
    else if IsDigit(s[0]) then [s[0]] + DigitsOnly(s[1..])
    else DigitsOnly(s[1..])
  }

  /** Filtering distributes over concatenation, so `DigitsOnly` keeps every
      digit, in order, and nothing else. */
  lemma {:induction false} DigitsOnlyAppend(a: string, b: string)
    ensures DigitsOnly(a + b) == DigitsOnly(a) + DigitsOnly(b)
    decreases |a|
  {
    if a == [] {
      assert a + b == b;
    } else {
      assert (a + b)[1..] == a[1..] + b;
      DigitsOnlyAppend(a[1..], b);
    }
  }

  /** A string of digits is left unchanged. */
  lemma {:induction false} DigitsOnlyOfDigits(s: string)
    requires AllDigits(s)
    ensures DigitsOnly(s) == s
    decreases |s|
  {
    if s != [] {
      DigitsOnlyOfDigits(s[1..]);
      assert [s[0]] + s[1..] == s;
    }
  }

  /** A string without digits filters to nothing. */
  lemma {:induction false} DigitsOnlyOfNonDigits(s: string)
    requires forall i :: 0 <= i < |s| ==> !IsDigit(s[i])
    ensures DigitsOnly(s) == []
    decreases |s|
  {
    if s != [] {
      DigitsOnlyOfNonDigits(s[1..]);
    }
  }

  /** Nothing is dropped exactly when every character is a digit. */
  lemma {:induction false} DigitsOnlyKeepsAllIffDigits(s: string)
    ensures |DigitsOnly(s)| == |s| <==> AllDigits(s)
    decreases |s|
  {
    if s != [] {
      DigitsOnlyKeepsAllIffDigits(s[1..]);
      if AllDigits(s) {
        assert AllDigits(s[1..]);
      }
    }
  }

  /** `s.slice(0, n)`. */
  function Take(s: string, n: nat): (r: string)
    ensures |r| == if |s| <= n then |s| else n
    ensures r == s[..|r|]
  {
    if |s| <= n then s else s[..n]
  }

  /** `s.slice(-n)` for a positive `n`: the last `n` characters, or all of a
      shorter string. */
  function TakeLast(s: string, n: nat): (r: string)
    requires n > 0
    ensures |r| == if |s| <= n then |s| else n
    ensures r == s[|s| - |r|..]
  {
    if |s| <= n then s else s[|s| - n..]
  }

  // ----- UTF-16 lengths --------------------------------------------------

  /** The UTF-16 code units of a character: two for a character outside the
      Basic Multilingual Plane, one otherwise. */
  function CodeUnits(c: char): nat {
    if c as int >= 0x1_0000 then 2 else 1
  }

  /** JavaScript's `length`: the UTF-16 code units of a string. */
  function Utf16Length(s: string): nat {
    if s == [] then 0 else CodeUnits(s[0]) + Utf16Length(s[1..])
  }

  /** The longest prefix of `s` that fits in `n` UTF-16 code units: the cut
      a text input's `maxLength` makes. A character whose two code units
      straddle the limit is dropped whole. */
  function TakeUnits(s: string, n: nat): (r: string)
    ensures |r| <= |s| && r == s[..|r|]
  {
    if s == [] || CodeUnits(s[0]) > n then []
    else [s[0]] + TakeUnits(s[1..], n - CodeUnits(s[0]))
  }

  /** The cut fits the limit, keeps as much as fits, and keeps text that
      fits whole. */
  lemma {:induction false} TakeUnitsFits(s: string, n: nat)
    ensures var r := TakeUnits(s, n);
            && Utf16Length(r) <= n
            && (|r| < |s| ==> Utf16Length(r) + CodeUnits(s[|r|]) > n)
            && (Utf16Length(s) <= n ==> r == s)
  {
    if s != [] && CodeUnits(s[0]) <= n {
      var rest := TakeUnits(s[1..], n - CodeUnits(s[0]));
      TakeUnitsFits(s[1..], n - CodeUnits(s[0]));
      assert ([s[0]] + rest)[1..] == rest;
    }
  }

  /** On text inside the Basic Multilingual Plane, code units are
      characters, so the cut is `Take`. */
  lemma {:induction false} TakeUnitsOfBmp(s: string, n: nat)
    requires forall i :: 0 <= i < |s| ==> CodeUnits(s[i]) == 1
    ensures TakeUnits(s, n) == Take(s, n)
  {
    if s != [] && n > 0 {
      TakeUnitsOfBmp(s[1..], n - 1);
      assert s == [s[0]] + s[1..];
    }
  }

  /** First index at or after `i` whose character is not dropped. */
  function SkipForward(s: string, drop: char -> bool, i: nat): (k: nat)
    requires i <= |s|
    ensures i <= k <= |s|
    ensures forall m :: i <= m < k ==> drop(s[m])
    ensures k < |s| ==> !drop(s[k])
    decreases |s| - i
  {
    if i < |s| && drop(s[i]) then SkipForward(s, drop, i + 1) else i
  }

  /** Last end index at or before `j`, but not below `lo`, whose preceding
      character is not dropped. */
  function SkipBackward(s: string, drop: char -> bool, lo: nat, j: nat): (k: nat)
    requires lo <= j <= |s|
    ensures lo <= k <= j
    ensures forall m :: k <= m < j ==> drop(s[m])
    ensures k > lo ==> !drop(s[k - 1])
    decreases j
  {
    if j > lo && drop(s[j - 1]) then SkipBackward(s, drop, lo, j - 1) else j
  }

  /** Where a strip of `s` starts: the first kept character. */
  function StripStart(s: string, drop: char -> bool): (i: nat)
    ensures i <= |s|
  {
    SkipForward(s, drop, 0)
  }

  /** Where a strip of `s` ends: just after the last kept character. */
  function StripEnd(s: string, drop: char -> bool): (j: nat)
    ensures StripStart(s, drop) <= j <= |s|
  {
    SkipBackward(s, drop, StripStart(s, drop), |s|)
  }

  /** Removes every leading and every trailing character that `drop` holds
      of; the result is the contiguous piece of `s` between the two runs. */
  function Strip(s: string, drop: char -> bool): (r: string)
    ensures r == s[StripStart(s, drop)..StripEnd(s, drop)]
    ensures |r| > 0 ==> !drop(r[0]) && !drop(r[|r| - 1])
    ensures forall m :: 0 <= m < StripStart(s, drop) ==> drop(s[m])
    ensures forall m :: StripEnd(s, drop) <= m < |s| ==> drop(s[m])
  {
    s[StripStart(s, drop)..StripEnd(s, drop)]
  }

  /** A string whose ends are kept is its own strip. */
  lemma StripFixed(s: string, drop: char -> bool)
    requires |s| > 0 ==> !drop(s[0]) && !drop(s[|s| - 1])
    ensures Strip(s, drop) == s
  {
  }

  /** A piece with kept ends and only dropped characters around it is
      exactly what the strip leaves. */
  lemma StripWithin(s: string, drop: char -> bool, i: nat, j: nat)
    requires i < j <= |s|
    requires forall m :: 0 <= m < i ==> drop(s[m])
    requires forall m :: j <= m < |s| ==> drop(s[m])
    requires !drop(s[i]) && !drop(s[j - 1])
    ensures Strip(s, drop) == s[i..j]
  {
    var a, b := StripStart(s, drop), StripEnd(s, drop);
    assert a <= i;
    assert j <= b;
    assert s[a] == Strip(s, drop)[0];
    assert s[b - 1] == Strip(s, drop)[b - a - 1];
    assert a == i;
    assert b == j;
  }

  /** A string of dropped characters strips to nothing. */
  lemma StripAllDropped(s: string, drop: char -> bool)
    requires forall m :: 0 <= m < |s| ==> drop(s[m])
    ensures Strip(s, drop) == []
  {
  }

  /** `String.prototype.trim`. */
  function Trim(s: string): (r: string)
    ensures |r| <= |s|
    ensures |r| > 0 ==> !IsWhitespace(r[0]) && !IsWhitespace(r[|r| - 1])
    ensures r == s[StripStart(s, IsWhitespace)..StripEnd(s, IsWhitespace)]
    ensures forall m :: 0 <= m < StripStart(s, IsWhitespace) ==> IsWhitespace(s[m])
    ensures forall m :: StripEnd(s, IsWhitespace) <= m < |s| ==> IsWhitespace(s[m])
  {
    Strip(s, IsWhitespace)
  }

  /** `replace(/\s/g, '')`: `s` with all white space removed. */
  function RemoveWhitespace(s: string): (r: string)
    ensures |r| <= |s|
    ensures forall i :: 0 <= i < |r| ==> !IsWhitespace(r[i])
  {
    if s == [] then []
    else if IsWhitespace(s[0]) then RemoveWhitespace(s[1..])
    else [s[0]] + RemoveWhitespace(s[1..])
  }

  /** One character: white space goes, anything else stays. */
  lemma RemoveWhitespaceOfChar(c: char)
    ensures IsWhitespace(c) ==> RemoveWhitespace([c]) == []
    ensures !IsWhitespace(c) ==> RemoveWhitespace([c]) == [c]
  {
    assert [c][1..] == [];
  }

  /** Removal distributes over concatenation, so with the one-character
      cases it keeps every other character, in order. */
  lemma {:induction false} RemoveWhitespaceAppend(a: string, b: string)
    ensures RemoveWhitespace(a + b) == RemoveWhitespace(a) + RemoveWhitespace(b)
    decreases |a|
  {
    if a == [] {
      assert a + b == b;
    } else {
      assert (a + b)[1..] == a[1..] + b;
      RemoveWhitespaceAppend(a[1..], b);
    }
  }

  /** A string without white space is left unchanged. */
  lemma {:induction false} RemoveWhitespaceOfDigits(s: string)
    requires AllDigits(s)
    ensures RemoveWhitespace(s) == s
    decreases |s|
  {
    if s != [] {
      RemoveWhitespaceOfDigits(s[1..]);
      assert [s[0]] + s[1..] == s;
    }
  }

  // ----- ", "-joined fields -----------------------------------------------

  predicate NoComma(p: string) {
    forall i :: 0 <= i < |p| ==> p[i] != ','
  }

  /** The template literal `${a}, ${b}, ...` over a list of fields. */
  function JoinFields(parts: seq<string>): string
    decreases |parts|
  {
    if |parts| == 0 then ""
    else if |parts| == 1 then parts[0]
    else parts[0] + ", " + JoinFields(parts[1..])
  }

  /** First index at or after `i` holding `c`, or `|s|`. */
  function IndexOf(s: string, c: char, i: nat): (k: nat)
    requires i <= |s|
    ensures i <= k <= |s|
    ensures forall m :: i <= m < k ==> s[m] != c
    ensures k < |s| ==> s[k] == c
    decreases |s| - i
  {
    if i == |s| || s[i] == c then i else IndexOf(s, c, i + 1)
  }

  /** Reads a ", "-joined string back into its fields: splits at each comma
      and drops the one blank after it. */
  function SplitFields(s: string): (r: seq<string>)
    ensures |r| >= 1
    decreases |s|
  {
    var k := IndexOf(s, ',', 0);
    if k == |s| then [s]
    else
      var rest := s[k + 1..];
      var tail := if |rest| > 0 && rest[0] == ' ' then rest[1..] else rest;
      [s[..k]] + SplitFields(tail)
  }

  /** Joining fields that hold no comma loses nothing: they can be read back. */
  lemma {:induction false} SplitJoinFields(parts: seq<string>)
    requires |parts| >= 1
    requires forall i :: 0 <= i < |parts| ==> NoComma(parts[i])
    ensures SplitFields(JoinFields(parts)) == parts
    decreases |parts|
  {
    var p := parts[0];
    if |parts| == 1 {
      assert IndexOf(p, ',', 0) == |p|;
    } else {
      var rest := JoinFields(parts[1..]);
      var s := p + ", " + rest;
      assert s == JoinFields(parts);
      assert s[|p|] == ',';
      var k := IndexOf(s, ',', 0);
      assert k == |p|;
      assert s[..k] == p;
      assert s[k + 1..] == " " + rest;
      assert (" " + rest)[1..] == rest;
      SplitJoinFields(parts[1..]);
      assert [p] + parts[1..] == parts;
    }
  }
}
