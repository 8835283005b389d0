/** Text operations shared by the JavaScript front end and the Python
    back end: substring search, split on a separator and its inverse join,
    decimal digits, and left padding. Strings are sequences of characters. */
module Strings {
  import opened Common

  // ---------------------------------------------------------------- search

  /** `p` occurs in `s` starting at index `j`. */
  predicate OccursAt(s: string, p: string, j: int) {
    0 <= j && j + |p| <= |s| && s[j..j + |p|] == p
  }

  /** Index of the first occurrence of `p` in `s` at or after `k`. */
  function IndexFrom(s: string, p: string, k: nat): (r: Option<nat>)
    decreases |s| - k
    ensures r.Some? ==> k <= r.value && OccursAt(s, p, r.value)
    ensures r.Some? ==> forall j :: k <= j < r.value ==> !OccursAt(s, p, j)
    ensures r.None? ==> forall j :: k <= j ==> !OccursAt(s, p, j)
  {
    if k + |p| > |s| then None
    else if s[k..k + |p|] == p then Some(k)
    else IndexFrom(s, p, k + 1)
  }

  /** Index of the first occurrence (JavaScript `indexOf`, Python `find`). */
  function IndexOf(s: string, p: string): (r: Option<nat>)
    ensures r.Some? ==> OccursAt(s, p, r.value)
    ensures r.Some? ==> forall j :: 0 <= j < r.value ==> !OccursAt(s, p, j)
    ensures r.None? <==> forall j :: !OccursAt(s, p, j)
  {
    IndexFrom(s, p, 0)
  }

  /** `p in s` of Python, `s.includes(p)` of JavaScript. */
  predicate Contains(s: string, p: string) {
    IndexOf(s, p).Some?
  }

  /** `s.startswith(p)` / `s.startsWith(p)`. */
  predicate StartsWith(s: string, p: string) {
    |p| <= |s| && s[..|p|] == p
  }

  lemma StartsWithOccurs(s: string, p: string)
    requires StartsWith(s, p)
    ensures OccursAt(s, p, 0) && Contains(s, p)
  {
    assert OccursAt(s, p, 0);
  }

  /** An occurrence inside a part is an occurrence inside the whole. */
  lemma OccursInPrefix(s: string, p: string, n: nat, j: int)
    requires n <= |s| && OccursAt(s[..n], p, j)
    ensures OccursAt(s, p, j)
  {
    assert s[..n][j..j + |p|] == s[j..j + |p|];
  }

  lemma OccursInSuffix(s: string, p: string, n: nat, j: int)
    requires n <= |s| && OccursAt(s[n..], p, j)
    ensures OccursAt(s, p, n + j)
  {
    assert s[n..][j..j + |p|] == s[n + j..n + j + |p|];
  }

  // ---------------------------------------------------------------- split / join

  /** `s.split(sep)` of Python and JavaScript for a non-empty separator:
      the pieces between the non-overlapping occurrences found left to right. */
  function Split(s: string, sep: string): (r: seq<string>)
    requires |sep| > 0
    decreases |s|
    ensures |r| >= 1
  {
    match IndexOf(s, sep)
    case None => [s]
    case Some(i) => [s[..i]] + Split(s[i + |sep|..], sep)
  }

  /** `sep.join(parts)` of Python, `parts.join(sep)` of JavaScript. */
  function Join(parts: seq<string>, sep: string): string {
    if |parts| == 0 then ""
    else if |parts| == 1 then parts[0]
    else parts[0] + sep + Join(parts[1..], sep)
  }

  /** `s.split(sep)[-1]`: the text after the last occurrence of `sep`, or all of `s`. */
  function LastPiece(s: string, sep: string): string
    requires |sep| > 0
  {
    var parts := Split(s, sep);
    parts[|parts| - 1]
  }

  /** `s.replace(old, new)` of Python: every occurrence, left to right. */
  function Replace(s: string, target: string, replacement: string): string
    requires |target| > 0
  {
    Join(Split(s, target), replacement)
  }

  /** One step of a split: the text before the first occurrence, then the rest. */
  lemma SplitUnfold(s: string, sep: string)
    requires |sep| > 0 && Contains(s, sep)
    ensures var i := IndexOf(s, sep).value;
      i + |sep| <= |s| && Split(s, sep) == [s[..i]] + Split(s[i + |sep|..], sep)
  {
  }

  lemma JoinCons(x: string, tail: seq<string>, sep: string)
    requires |tail| >= 1
    ensures Join([x] + tail, sep) == x + sep + Join(tail, sep)
  {
    assert ([x] + tail)[1..] == tail;
  }

  /** Four parts joined: each of the first three followed by the separator. */
  lemma JoinFour(q: seq<string>, sep: string)
    requires |q| == 4
    ensures Join(q, sep) == (q[0] + sep) + ((q[1] + sep) + ((q[2] + sep) + q[3]))
  {
    var r := q[1..];
    assert r[0] == q[1] && r[1..][0] == q[2] && r[1..][1..][0] == q[3];
    assert Join(r[1..][1..], sep) == q[3];
    assert Join(r[1..], sep) == (q[2] + sep) + q[3];
  }

  /** A text is the part before an occurrence, the occurrence, and the part after. */
  lemma AroundOccurrence(s: string, sep: string, i: int)
    requires OccursAt(s, sep, i)
    ensures s == s[..i] + sep + s[i + |sep|..]
  {
    assert s == s[..i] + s[i..i + |sep|] + s[i + |sep|..];
  }

  /** Joining the pieces of a split with the same separator gives the text back. */
  lemma {:induction false} SplitJoin(s: string, sep: string)
    requires |sep| > 0
    decreases |s|
    ensures Join(Split(s, sep), sep) == s
  {
    if Contains(s, sep) {
      var i := IndexOf(s, sep).value;
      assert IndexOf(s, sep) == Some(i);
      var rest := s[i + |sep|..];
      SplitUnfold(s, sep);
      SplitJoin(rest, sep);
      JoinCons(s[..i], Split(rest, sep), sep);
      AroundOccurrence(s, sep, i);
    }
  }

  /** No piece of a split contains the separator. */
  lemma {:induction false} SplitPiecesFree(s: string, sep: string)
    requires |sep| > 0
    decreases |s|
    ensures forall k :: 0 <= k < |Split(s, sep)| ==> !Contains(Split(s, sep)[k], sep)
  {
    match IndexOf(s, sep)
    case None =>
    case Some(i) =>
      var rest := s[i + |sep|..];
      SplitPiecesFree(rest, sep);
      var r := Split(s, sep);
      assert r == [s[..i]] + Split(rest, sep);
      if Contains(s[..i], sep) {
        var j := IndexOf(s[..i], sep).value;
        OccursInPrefix(s, sep, i, j);
        assert false;
      }
      forall k | 0 <= k < |r|
        ensures !Contains(r[k], sep)
      {
        if k > 0 {
          assert r[k] == Split(rest, sep)[k - 1];
        }
      }
  }

  /** The first piece is the text before the first occurrence, or all of it. */
  lemma SplitFirst(s: string, sep: string)
    requires |sep| > 0
    ensures IndexOf(s, sep).None? ==> Split(s, sep)[0] == s
    ensures IndexOf(s, sep).Some? ==> Split(s, sep)[0] == s[..IndexOf(s, sep).value]
  {
  }

  /** The second piece is the text after the first occurrence up to the next one. */
  lemma SplitSecond(s: string, sep: string)
    requires |sep| > 0 && Contains(s, sep)
    ensures |Split(s, sep)| >= 2
    ensures Split(s, sep)[1] == Split(s[IndexOf(s, sep).value + |sep|..], sep)[0]
  {
  }

  /** The pieces of a split of `a + sep + b`, when `sep` first occurs right after `a`. */
  lemma SplitAt(a: string, sep: string, b: string)
    requires |sep| > 0
    requires forall j :: 0 <= j < |a| ==> !OccursAt(a + sep + b, sep, j)
    ensures Split(a + sep + b, sep) == [a] + Split(b, sep)
  {
    var s := a + sep + b;
    assert OccursAt(s, sep, |a|);
    assert IndexOf(s, sep) == Some(|a|);
    assert s[..|a|] == a && s[|a| + |sep|..] == b;
  }

  /** A split has one piece exactly when the separator does not occur, and that
      piece is then the whole text. */
  lemma SplitNone(s: string, sep: string)
    requires |sep| > 0
    ensures |Split(s, sep)| == 1 <==> !Contains(s, sep)
    ensures !Contains(s, sep) ==> Split(s, sep) == [s]
  {
    if Contains(s, sep) {
      SplitUnfold(s, sep);
    }
  }

  /** `s.endswith(x)`. */
  predicate EndsWith(s: string, x: string) {
    |x| <= |s| && s[|s| - |x|..] == x
  }

  lemma EndsWithAppend(a: string, b: string, x: string)
    requires EndsWith(b, x)
    ensures EndsWith(a + b, x)
  {
    assert (a + b)[|a + b| - |x|..] == b[|b| - |x|..];
  }

  lemma EndsWithOccurs(s: string, sep: string, l: string)
    requires EndsWith(s, sep + l)
    ensures EndsWith(s, l) && OccursAt(s, sep, |s| - |l| - |sep|)
  {
    var n := |s| - |l| - |sep|;
    assert s[n..] == sep + l;
    assert s[n..][..|sep|] == s[n..n + |sep|];
    assert s[n..][|sep|..] == s[|s| - |l|..];
  }

  /** A join ends with its last part, preceded by the separator when there are two parts or more. */
  lemma {:induction false} JoinEndsWithLast(parts: seq<string>, sep: string)
    requires |parts| >= 1
    ensures EndsWith(Join(parts, sep), parts[|parts| - 1])
    ensures |parts| >= 2 ==> EndsWith(Join(parts, sep), sep + parts[|parts| - 1])
  {
    var l := parts[|parts| - 1];
    if |parts| >= 2 {
      var tail := parts[1..];
      assert l == tail[|tail| - 1];
      JoinEndsWithLast(tail, sep);
      if |tail| >= 2 {
        EndsWithAppend(parts[0] + sep, Join(tail, sep), sep + l);
        EndsWithOccurs(Join(parts, sep), sep, l);
      } else {
        assert Join(parts, sep) == parts[0] + (sep + l);
        EndsWithAppend(parts[0], sep + l, sep + l);
        EndsWithOccurs(Join(parts, sep), sep, l);
      }
    }
  }

  /** The last piece is a suffix of the text, and unless it is the whole text,
      the separator occurs right before it. */
  lemma LastPieceSuffix(s: string, sep: string)
    requires |sep| > 0
    ensures EndsWith(s, LastPiece(s, sep))
    ensures Contains(s, sep) ==> OccursAt(s, sep, |s| - |LastPiece(s, sep)| - |sep|)
  {
    var parts := Split(s, sep);
    var l := parts[|parts| - 1];
    assert s == Join(parts, sep) by { SplitJoin(s, sep); }
    JoinEndsWithLast(parts, sep);
    if Contains(s, sep) {
      assert |parts| >= 2 by { SplitNone(s, sep); }
      EndsWithOccurs(s, sep, l);
    }
  }

  /** The last piece contains no separator. */
  lemma SplitLast(s: string, sep: string)
    requires |sep| > 0
    ensures !Contains(LastPiece(s, sep), sep)
  {
    SplitPiecesFree(s, sep);
  }

  // ---------------------------------------------------------------- digits

  predicate IsDigit(c: char) {
    '0' <= c <= '9'
  }

  predicate AllDigits(s: string) {
    forall k :: 0 <= k < |s| ==> IsDigit(s[k])
  }

  function DigitChar(d: nat): (c: char)
    requires d < 10
    ensures IsDigit(c)
  {
    ('0' as int + d) as char
  }

  /** The value of a string of decimal digits (leading zeros allowed). */
  function DigitsValue(s: string): nat
    requires AllDigits(s)
  {
    if s == [] then 0
    else DigitsValue(s[..|s| - 1]) * 10 + (s[|s| - 1] as int - '0' as int)
  }

  /** The shortest decimal notation of a natural number. */
  function NatToString(n: nat): (r: string)
    ensures |r| >= 1 && AllDigits(r)
  {
    if n < 10 then [DigitChar(n)] else NatToString(n / 10) + [DigitChar(n % 10)]
  }

  /** The decimal text of `n` has the value `n` and, past one digit, no
      leading zero. */
  lemma {:induction false} NatToStringValue(n: nat)
    ensures DigitsValue(NatToString(n)) == n
    ensures n >= 10 ==> NatToString(n)[0] != '0'
  {
    if n >= 10 {
      NatToStringValue(n / 10);
      var init := NatToString(n / 10);
      var r := NatToString(n);
      assert r == init + [DigitChar(n % 10)];
      assert r[..|r| - 1] == init;
      if n / 10 < 10 {
        assert init == [DigitChar(n / 10)];
      }
    }
  }

  /** Leading zeros do not change the value of a digit string. */
  lemma {:induction false} LeadingZero(s: string)
    requires AllDigits(s)
    ensures AllDigits("0" + s) && DigitsValue("0" + s) == DigitsValue(s)
  {
    if s != [] {
      var init := s[..|s| - 1];
      LeadingZero(init);
      assert ("0" + s)[..|"0" + s| - 1] == "0" + init;
    }
  }

  function Repeat(c: char, n: nat): (r: string)
    ensures |r| == n && forall k :: 0 <= k < n ==> r[k] == c
  {
    if n == 0 then [] else [c] + Repeat(c, n - 1)
  }

  lemma {:induction false} ZerosValue(n: nat, s: string)
    requires AllDigits(s)
    ensures AllDigits(Repeat('0', n) + s) && DigitsValue(Repeat('0', n) + s) == DigitsValue(s)
  {
    if n > 0 {
      var x := Repeat('0', n - 1) + s;
      ZerosValue(n - 1, s);
      LeadingZero(x);
      assert Repeat('0', n) == "0" + Repeat('0', n - 1);
      assert Repeat('0', n) + s == "0" + x;
    } else {
      assert Repeat('0', n) + s == s;
    }
  }

  /** `s.padStart(width, c)` of JavaScript for a one-character pad: the text
      is kept whole and at its end, and pad characters fill it to `width`. */
  function PadStart(s: string, width: nat, c: char): (r: string)
    ensures |r| == if |s| >= width then |s| else width
    ensures r[|r| - |s|..] == s
    ensures forall k :: 0 <= k < |r| - |s| ==> r[k] == c
  {
    if |s| >= width then s else Repeat(c, width - |s|) + s
  }
}
