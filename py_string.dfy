/** The Python `str` operations the GPU detection back end applies to tool
    output: `strip`, `strip(chars)`, `upper`, the whitespace `split()`, the
    slice `parts[2:-1]`, and `int(text)`. Substring search, `split(sep)` and
    `replace` are those of the `Strings` module. */
module PyString {
  import opened Common
  import opened Strings
  import opened JsNumber

  /** `c.isspace()`: the characters Python treats as whitespace. */
  predicate IsSpace(c: char) {
    c == ' ' || '\t' <= c <= '\r' || '\U{1C}' <= c <= '\U{1F}' ||
    c == '\U{85}' || c == '\U{A0}' || c == '\U{1680}' || '\U{2000}' <= c <= '\U{200A}' ||
    c == '\U{2028}' || c == '\U{2029}' || c == '\U{202F}' || c == '\U{205F}' || c == '\U{3000}'
  }

  /** The length of the longest prefix of `s` whose characters all satisfy `p`. */
  function LeadingCount(s: string, p: char -> bool): (n: nat)
    ensures n <= |s|
    ensures forall k :: 0 <= k < n ==> p(s[k])
    ensures n < |s| ==> !p(s[n])
  {
    if s == [] || !p(s[0]) then 0 else 1 + LeadingCount(s[1..], p)
  }

  /** The length of the longest suffix of `s` whose characters all satisfy `p`. */
  function TrailingCount(s: string, p: char -> bool): (n: nat)
    ensures n <= |s|
    ensures forall k :: |s| - n <= k < |s| ==> p(s[k])
    ensures n < |s| ==> !p(s[|s| - n - 1])
  {
    if s == [] || !p(s[|s| - 1]) then 0 else 1 + TrailingCount(s[..|s| - 1], p)
  }

  /** Removes the characters satisfying `p` from both ends. */
  function StripBy(s: string, p: char -> bool): (r: string)
    ensures |r| <= |s|
    ensures r == [] || (!p(r[0]) && !p(r[|r| - 1]))
  {
    var t := s[LeadingCount(s, p)..];
    t[..|t| - TrailingCount(t, p)]
  }

  /** `s.strip()`. */
  function Strip(s: string): string {
    StripBy(s, IsSpace)
  }

  /** `s.strip(")")`. */
  function StripChar(s: string, c: char): string {
    StripBy(s, x => x == c)
  }

  /** A text whose ends do not satisfy `p` is left as it is. */
  lemma StripByUnchanged(s: string, p: char -> bool)
    requires s == [] || (!p(s[0]) && !p(s[|s| - 1]))
    ensures StripBy(s, p) == s
  {
    assert LeadingCount(s, p) == 0;
    assert s[0..] == s;
    assert TrailingCount(s, p) == 0;
  }

  /** `s.strip(c)` of a text ending in one `c` whose own ends are not `c`
      removes exactly that `c`. */
  lemma StripOneTrailing(a: string, c: char)
    requires |a| >= 1 && a[0] != c && a[|a| - 1] != c
    ensures StripChar(a + [c], c) == a
  {
    var s := a + [c];
    var p := x => x == c;
    assert LeadingCount(s, p) == 0;
    assert s[0..] == s;
    assert s[..|s| - 1] == a;
    assert TrailingCount(a, p) == 0;
    assert TrailingCount(s, p) == 1;
  }

  function UpperChar(c: char): char {
    if 'a' <= c <= 'z' then (c as int - 'a' as int + 'A' as int) as char else c
  }

  /** `s.upper()` for ASCII text. */
  function Upper(s: string): (r: string)
    ensures |r| == |s|
    ensures forall k :: 0 <= k < |s| ==> r[k] == UpperChar(s[k])
  {
    if s == [] then [] else [UpperChar(s[0])] + Upper(s[1..])
  }

  predicate NotSpace(c: char) {
    !IsSpace(c)
  }

  /** `s.split()`: the maximal runs of non-whitespace characters, in order. */
  function Words(s: string): (r: seq<string>)
    decreases |s|
    ensures forall k :: 0 <= k < |r| ==> IsWord(r[k])
  {
    var t := s[LeadingCount(s, IsSpace)..];
    if t == [] then []
    else
      var w := LeadingCount(t, NotSpace);
      FirstWord(t);
      [t[..w]] + Words(t[w..])
  }

  /** A text that starts with a non-space starts with a word of at least
      one character, none of them whitespace. */
  lemma FirstWord(t: string)
    requires t != [] && !IsSpace(t[0])
    ensures var w := LeadingCount(t, NotSpace); 1 <= w <= |t| && IsWord(t[..w])
  {
    assert NotSpace(t[0]);
  }

  /** A word of `split()`: non-empty and free of whitespace. */
  predicate IsWord(x: string) {
    x != [] && forall i :: 0 <= i < |x| ==> !IsSpace(x[i])
  }

  /** `parts[2:-1]`: drops the first two parts and the last one. */
  function DropTwoAndLast<T>(parts: seq<T>): (r: seq<T>)
    ensures |r| == if |parts| > 3 then |parts| - 3 else 0
    ensures forall k :: 0 <= k < |r| ==> r[k] == parts[k + 2]
  {
    if |parts| > 3 then parts[2..|parts| - 1] else []
  }

  /** The digit groups `int` accepts: digits, with single underscores between them. */
  predicate DigitGroups(s: string) {
    |s| >= 1 && IsDigit(s[0]) && IsDigit(s[|s| - 1]) &&
    (forall k :: 0 <= k < |s| ==> IsDigit(s[k]) || s[k] == '_') &&
    (forall k :: 0 <= k < |s| - 1 ==> !(s[k] == '_' && s[k + 1] == '_'))
  }

  /** The text without its underscores. */
  function WithoutUnderscores(s: string): (r: string)
    ensures |r| <= |s|
    ensures (forall k :: 0 <= k < |s| ==> IsDigit(s[k]) || s[k] == '_') ==> AllDigits(r)
  {
    if s == [] then []
    else (if s[0] == '_' then [] else [s[0]]) + WithoutUnderscores(s[1..])
  }

  /** Text without underscores is left as it is. */
  lemma {:induction false} NoUnderscores(s: string)
    requires AllDigits(s)
    ensures WithoutUnderscores(s) == s
  {
    if s != [] {
      NoUnderscores(s[1..]);
    }
  }

  /** The value of decimal digits with optional underscores; they must be
      valid digit groups. */
  function GroupsValue(s: string): nat
    requires DigitGroups(s)
  {
    DigitsValue(WithoutUnderscores(s))
  }

  /** `int(text)` for a base-10 literal: surrounding whitespace, an optional
      sign, then digit groups; anything else raises ValueError (`None`). */
  function ParseInt(text: string): (r: Option<int>)
    ensures r.Some? ==> |Strip(text)| >= 1
  {
    ParseLiteral(Strip(text))
  }

  /** The literal once the whitespace is stripped. */
  function ParseLiteral(t: string): (r: Option<int>)
    ensures r.Some? ==> |t| >= 1
  {
    if |t| >= 1 && (t[0] == '-' || t[0] == '+') then
      var body := t[1..];
      if DigitGroups(body) then
        Some(if t[0] == '-' then -(GroupsValue(body) as int) else GroupsValue(body))
      else None
    else if DigitGroups(t) then Some(GroupsValue(t))
    else None
  }

  /** A plain run of digits is a valid literal with its own value. */
  lemma PlainDigits(d: string)
    requires |d| >= 1 && AllDigits(d)
    ensures DigitGroups(d) && GroupsValue(d) == DigitsValue(d)
  {
    NoUnderscores(d);
  }

  /** `int(str(n)) == n`: the decimal text of an integer parses back to it. */
  lemma ParseIntOfString(n: int)
    ensures ParseInt(IntToString(n)) == Some(n)
  {
    if n >= 0 {
      ParseNatString(n);
    } else {
      ParseNegString(n);
    }
  }

  lemma ParseNatString(n: nat)
    ensures ParseInt(NatToString(n)) == Some(n)
  {
    var d := NatToString(n);
    NoSurroundingSpace(d);
    ParseDigits(d);
    NatToStringValue(n);
  }

  lemma ParseNegString(n: int)
    requires n < 0
    ensures ParseInt("-" + NatToString(-n)) == Some(n)
  {
    var d := NatToString(-n);
    var s := "-" + d;
    assert s[1..] == d;
    assert DigitsValue(d) == -n by {
      NatToStringValue(-n);
    }
    assert ParseLiteral(s) == Some(n) by {
      ParseNegDigits(s);
    }
    NoSurroundingSpace(s);
  }

  /** Text that begins and ends with a non-space character parses as its literal. */
  lemma NoSurroundingSpace(s: string)
    requires |s| >= 1 && !IsSpace(s[0]) && !IsSpace(s[|s| - 1])
    ensures ParseInt(s) == ParseLiteral(s)
  {
    StripByUnchanged(s, IsSpace);
  }

  /** Bare digits parse to their value. */
  lemma ParseDigits(d: string)
    requires |d| >= 1 && AllDigits(d)
    ensures ParseLiteral(d) == Some(DigitsValue(d) as int)
  {
    PlainDigits(d);
  }

  /** A minus sign and digits parse to the negated value. */
  lemma ParseNegDigits(s: string)
    requires |s| >= 2 && s[0] == '-' && AllDigits(s[1..])
    ensures ParseLiteral(s) == Some(-(DigitsValue(s[1..]) as int))
  {
    PlainDigits(s[1..]);
  }

  /** Text with a letter in it is not an integer literal. */
  lemma ParseIntRejectsLetter(text: string, k: nat)
    requires k < |text| && 'A' <= text[k] <= 'Z'
    ensures ParseInt(text).None?
  {
    var p := LeadingCount(text, IsSpace);
    var t := Strip(text);
    var u := text[p..];
    assert !IsSpace(text[k]);
    assert k >= p;
    var q := TrailingCount(u, IsSpace);
    assert k - p < |u| - q;
    assert t[k - p] == text[k];
  }
}
