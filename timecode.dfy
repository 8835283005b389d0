/** Colon-separated timecodes such as `00:01:05:12`: each field is written
    with `padStart(2, "0")` and the fields are joined with `:`. Reading a
    timecode back splits on `:` and takes the decimal value of each field. */
module Timecode {
  import opened Common
  import opened Strings
  import opened JsNumber

  /** The fields joined with colons, each padded to two digits. */
  function Render(fields: seq<int>): string {
    Join(Padded(fields), ":")
  }

  /** Each field as `String(n).padStart(2, "0")`. */
  function Padded(fields: seq<int>): (r: seq<string>)
    ensures |r| == |fields|
    ensures forall k :: 0 <= k < |fields| ==> r[k] == Pad2(fields[k])
  {
    Map(fields, Pad2)
  }

  /** The values of a sequence of digit strings. */
  function Values(parts: seq<string>): (r: seq<nat>)
    requires forall k :: 0 <= k < |parts| ==> AllDigits(parts[k])
    ensures |r| == |parts|
    ensures forall k :: 0 <= k < |parts| ==> r[k] == DigitsValue(parts[k])
  {
    if parts == [] then [] else [DigitsValue(parts[0])] + Values(parts[1..])
  }

  predicate IsField(p: string) {
    |p| >= 1 && AllDigits(p)
  }

  /** Reads a timecode of `count` fields, or `None` when the text is not one. */
  function Parse(s: string, count: nat): (r: Option<seq<nat>>)
    ensures r.Some? ==> |r.value| == count
  {
    var parts := Split(s, ":");
    if |parts| == count && forall k :: 0 <= k < |parts| ==> IsField(parts[k]) then
      Some(Values(parts))
    else None
  }

  /** A padded field holds no colon, whatever its sign. */
  lemma Pad2NoColon(n: int)
    ensures forall k :: 0 <= k < |Pad2(n)| ==> Pad2(n)[k] != ':'
  {
    var s := IntToString(n);
    assert forall k :: 0 <= k < |s| ==> s[k] != ':';
  }

  /** A text without the character `c` splits into itself. */
  lemma SplitFree(a: string, c: char)
    requires forall k :: 0 <= k < |a| ==> a[k] != c
    ensures Split(a, [c]) == [a]
  {
    forall j | 0 <= j
      ensures !OccursAt(a, [c], j)
    {
      if j + 1 <= |a| {
        assert a[j..j + 1] == [a[j]];
      }
    }
    SplitNone(a, [c]);
  }

  /** Text then `c` then more: the first piece is the text before `c`. */
  lemma SplitAtFree(a: string, c: char, b: string)
    requires forall k :: 0 <= k < |a| ==> a[k] != c
    ensures Split(a + [c] + b, [c]) == [a] + Split(b, [c])
  {
    var s := a + [c] + b;
    forall j | 0 <= j < |a|
      ensures !OccursAt(s, [c], j)
    {
      assert s[j..j + 1] == [a[j]];
    }
    SplitAt(a, [c], b);
  }

  /** Splitting a join of colon-free parts on the colon gives the parts back. */
  lemma {:induction false} SplitJoinFree(parts: seq<string>, c: char)
    requires |parts| >= 1
    requires forall k, i :: 0 <= k < |parts| && 0 <= i < |parts[k]| ==> parts[k][i] != c
    ensures Split(Join(parts, [c]), [c]) == parts
  {
    if |parts| == 1 {
      SplitFree(parts[0], c);
    } else {
      var tail := parts[1..];
      SplitJoinFree(tail, c);
      assert forall i :: 0 <= i < |parts[0]| ==> parts[0][i] != c;
      SplitAtFree(parts[0], c, Join(tail, [c]));
      assert parts == [parts[0]] + tail;
    }
  }

  /** Rendered fields split back into their padded texts. */
  lemma SplitRender(fields: seq<int>)
    requires |fields| >= 1
    ensures Split(Render(fields), ":") == Padded(fields)
  {
    var parts := Padded(fields);
    forall k, i | 0 <= k < |parts| && 0 <= i < |parts[k]|
      ensures parts[k][i] != ':'
    {
      Pad2NoColon(fields[k]);
    }
    SplitJoinFree(parts, ':');
  }

  /** Padded non-negative fields are digit strings whose values are the fields. */
  lemma ValuesOfPadded(fields: seq<int>)
    requires forall k :: 0 <= k < |fields| ==> fields[k] >= 0
    ensures var parts := Padded(fields);
      (forall k :: 0 <= k < |parts| ==> IsField(parts[k])) && Values(parts) == fields
  {
    PaddedFields(fields);
    var v := Values(Padded(fields));
    forall k | 0 <= k < |fields|
      ensures v[k] == fields[k]
    {
      Pad2Value(fields[k]);
    }
  }

  lemma PaddedFields(fields: seq<int>)
    requires forall k :: 0 <= k < |fields| ==> fields[k] >= 0
    ensures var parts := Padded(fields); forall k :: 0 <= k < |parts| ==> IsField(parts[k])
  {
    var parts := Padded(fields);
    forall k | 0 <= k < |parts|
      ensures IsField(parts[k])
    {
      Pad2Value(fields[k]);
    }
  }

  /** Reading a rendered timecode of non-negative fields gives the fields back:
      padding never truncates a field and never changes its value. */
  lemma ParseRender(fields: seq<int>)
    requires |fields| >= 1
    requires forall k :: 0 <= k < |fields| ==> fields[k] >= 0
    ensures Parse(Render(fields), |fields|) == Some(fields)
  {
    SplitRender(fields);
    ValuesOfPadded(fields);
  }
}
