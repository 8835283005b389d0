/** The timeline panel of the editor (`TimelinePanel`): its clock display
    `HH:MM:SS:FF`, the tick marks of its 60-second scale, deleting the
    selected clip, and the playback cursor, which advances with the elapsed
    time of each animation frame, stops at the end of the timeline, and can
    be dragged. */
module TimelinePanel {
  import opened Common
  import opened Strings
  import opened JsNumber
  import opened Timecode
  import opened TimelineTrackContainer

  const PixelsPerSecond: real := 100.0
  /** The timeline's length in seconds. */
  const TimelineLength: int := 60

  // ---------------------------------------------------------------- clock display

  datatype ClockFields = ClockFields(hours: int, minutes: int, seconds: int, frames: int)

  /** The four fields of `formatTime`, each a `Math.floor` of a JavaScript
      division or remainder. */
  function Fields(t: real, fps: real): ClockFields {
    ClockFields((t / 3600.0).Floor, (Rem(t, 3600.0) / 60.0).Floor, Rem(t, 60.0).Floor,
                (Rem(t, 1.0) * fps).Floor)
  }

  function FieldList(f: ClockFields): seq<int> {
    [f.hours, f.minutes, f.seconds, f.frames]
  }

  /** `formatTime(timeInSeconds, fps)`: the four fields, each padded to two digits. */
  function FormatTime(t: real, fps: real): string {
    Render(FieldList(Fields(t, fps)))
  }

  /** Time 0 at 30 frames per second reads `00:00:00:00`. */
  lemma FormatTimeZero()
    ensures FormatTime(0.0, 30.0) == "00:00:00:00"
  {
    ZeroClockFields();
    ZerosRender();
  }

  lemma ZeroClockFields()
    ensures FieldList(Fields(0.0, 30.0)) == [0, 0, 0, 0]
  {
    assert Rem(0.0, 3600.0) == 0.0 && Rem(0.0, 60.0) == 0.0 && Rem(0.0, 1.0) == 0.0;
  }

  lemma ZerosRender()
    ensures Render([0, 0, 0, 0]) == "00:00:00:00"
  {
    var q := Padded([0, 0, 0, 0]);
    JoinFour(q, ":");
    Pad2Zero();
    assert q[0] == "00" && q[1] == "00" && q[2] == "00" && q[3] == "00";
  }

  /** For a non-negative time and a positive integral frame rate, minutes and
      seconds lie in [0, 59], frames in [0, fps - 1], and the hours, minutes
      and seconds together are the whole seconds of `t`. */
  lemma FieldsBounds(t: real, fps: int)
    requires t >= 0.0 && fps > 0
    ensures var f := Fields(t, fps as real);
      f.hours >= 0 && 0 <= f.minutes <= 59 && 0 <= f.seconds <= 59 && 0 <= f.frames <= fps - 1 &&
      f.hours * 3600 + f.minutes * 60 + f.seconds == t.Floor
  {
    var h := (t / 3600.0).Floor;
    var m := (Rem(t, 3600.0) / 60.0).Floor;
    var s := Rem(t, 60.0).Floor;
    HoursAndMinutes(t);
    SecondsOfMinute(t, h * 60 + m);
    assert s == t.Floor - 60 * (h * 60 + m);
    assert h * 3600 + m * 60 + s == t.Floor;
    FramesBelowRate(Rem(t, 1.0), fps);
  }

  /** `t % 3600` is `t` less its whole hours, and `(t % 3600) / 60` floors to
      the minutes within the hour, so `t / 60` floors to `60 h + m`. */
  lemma HoursAndMinutes(t: real)
    requires t >= 0.0
    ensures var h := (t / 3600.0).Floor; var m := (Rem(t, 3600.0) / 60.0).Floor;
      h >= 0 && 0 <= m <= 59 && (t / 60.0).Floor == h * 60 + m
  {
    var h := (t / 3600.0).Floor;
    var r := Rem(t, 3600.0);
    assert r == t - 3600.0 * h as real;
    assert 0.0 <= r / 60.0 < 60.0;
    assert t / 60.0 == r / 60.0 + (60 * h) as real;
  }

  /** With `q` the whole minutes of `t`, `t % 60` floors to the remaining seconds. */
  lemma SecondsOfMinute(t: real, q: int)
    requires t >= 0.0 && q == (t / 60.0).Floor
    ensures 0 <= Rem(t, 60.0).Floor <= 59 && Rem(t, 60.0).Floor == t.Floor - 60 * q
  {
    var r := Rem(t, 60.0);
    assert r == t - 60.0 * q as real;
    assert (t + (-60 * q) as real).Floor == t.Floor - 60 * q;
  }

  lemma FramesBelowRate(x: real, fps: int)
    requires 0.0 <= x < 1.0 && fps > 0
    ensures 0 <= (x * fps as real).Floor <= fps - 1
  {
    assert x * fps as real < fps as real;
  }

  /** Reading the display back gives the four fields for a non-negative time
      and frame rate: padding never cuts a field. */
  lemma FormatTimeParses(t: real, fps: real)
    requires t >= 0.0 && fps >= 0.0
    ensures Parse(FormatTime(t, fps), 4) == Some(FieldList(Fields(t, fps)))
  {
    var f := Fields(t, fps);
    HoursAndMinutes(t);
    SecondsOfMinute(t, f.hours * 60 + f.minutes);
    assert Rem(t, 1.0) * fps >= 0.0;
    ParseRender(FieldList(f));
  }

  // ---------------------------------------------------------------- timeline scale

  /** One mark of the scale. */
  datatype Tick = Tick(timeInSeconds: real, text: string, isMajor: bool)

  /** Seconds between labelled marks: finer as the zoom grows. */
  function MajorInterval(zoom: real): int {
    if zoom >= 4.0 then 1 else if zoom >= 3.0 then 2 else if zoom >= 2.0 then 5 else 10
  }

  /** Steps per interval: one labelled mark and `density - 1` unlabelled ones. */
  function MinorDensity(zoom: real): int {
    if zoom >= 4.0 then 10 else 5
  }

  /** `new Date(i * 1000).toISOString().substr(11, 8) + ":00"`: the clock
      time of `i` seconds after midnight, then `:00`. */
  function Label(i: nat): string {
    Render([i / 3600 % 24, i / 60 % 60, i % 60, 0])
  }

  /** The unlabelled marks `j .. density - 1` after second `i`, those before
      the end of the timeline. */
  function Minors(i: int, j: int, interval: int, density: int): seq<Tick>
    requires 1 <= j <= density
    decreases density - j
  {
    if j == density then []
    else
      var t := MinorTime(i, j, interval, density);
      (if t < TimelineLength as real then [Tick(t, "", false)] else []) + Minors(i, j + 1, interval, density)
  }

  /** The time of the `j`-th unlabelled mark after the labelled mark at `i`. */
  function MinorTime(i: int, j: int, interval: int, density: int): real
    requires density > 0
  {
    i as real + j as real * (interval as real / density as real)
  }

  /** The scale from the labelled mark at second `i` on, each labelled mark
      `i` carrying the text `labelOf(i)`. */
  function ScaleFrom(i: nat, interval: int, density: int, labelOf: nat -> string): seq<Tick>
    requires interval > 0 && density >= 1
    decreases TimelineLength + 1 - i
  {
    if i > TimelineLength then []
    else
      var major := Tick(i as real, labelOf(i), true);
      [major] + Minors(i, 1, interval, density) + ScaleFrom(i + interval, interval, density, labelOf)
  }

  /** The whole scale for a zoom level. */
  function Scale(zoom: real): seq<Tick> {
    ScaleFrom(0, MajorInterval(zoom), MinorDensity(zoom), Label)
  }

  /** `generateTimelineScale()`. */
  method GenerateTimelineScale(zoom: real) returns (timelineScale: seq<Tick>)
    ensures timelineScale == Scale(zoom)
  {
    timelineScale := ScaleLoop(MajorInterval(zoom), MinorDensity(zoom), Label);
  }

  /** The loops of `generateTimelineScale` for a given interval, density and
      labelling of the labelled marks. */
  method ScaleLoop(interval: int, density: int, labelOf: nat -> string) returns (timelineScale: seq<Tick>)
    requires interval > 0 && density >= 1
    ensures timelineScale == ScaleFrom(0, interval, density, labelOf)
  {
    timelineScale := [];
    var i: nat := 0;
    while i <= TimelineLength
      invariant timelineScale + ScaleFrom(i, interval, density, labelOf) == ScaleFrom(0, interval, density, labelOf)
      decreases TimelineLength + 1 - i
    {
      ghost var before := timelineScale;
      var major := Tick(i as real, labelOf(i), true);
      timelineScale := timelineScale + [major];
      var j := 1;
      while j < density
        invariant 1 <= j <= density
        invariant timelineScale + Minors(i, j, interval, density) == before + [major] + Minors(i, 1, interval, density)
      {
        ghost var current := timelineScale;
        var minorTick := MinorTime(i, j, interval, density);
        var added := if minorTick < TimelineLength as real then [Tick(minorTick, "", false)] else [];
        timelineScale := timelineScale + added;
        Regroup(current, added, Minors(i, j + 1, interval, density));
        j := j + 1;
      }
      CloseMajor(before, timelineScale, major, Minors(i, 1, interval, density),
                 ScaleFrom(i + interval, interval, density, labelOf), ScaleFrom(0, interval, density, labelOf));
      i := i + interval;
    }
  }

  /** Closing one interval: the marks so far and the scale from the next
      labelled mark make up the whole scale. */
  lemma CloseMajor<T>(before: seq<T>, scale: seq<T>, major: T, minors: seq<T>, rest: seq<T>, whole: seq<T>)
    requires scale + [] == before + [major] + minors
    requires before + ([major] + minors + rest) == whole
    ensures scale + rest == whole
  {
    assert scale == before + [major] + minors;
  }

  lemma Regroup<T>(a: seq<T>, b: seq<T>, c: seq<T>)
    ensures (a + b) + c == a + (b + c)
  {
  }

  /** The interval divides the timeline's 60 seconds, and zooming in never
      makes the scale coarser. */
  lemma IntervalsFitTimeline(zoom: real, finer: real)
    ensures MajorInterval(zoom) in {1, 2, 5, 10} && TimelineLength % MajorInterval(zoom) == 0
    ensures MinorDensity(zoom) in {5, 10}
    ensures zoom <= finer ==> MajorInterval(finer) <= MajorInterval(zoom) && MinorDensity(zoom) <= MinorDensity(finer)
  {
  }

  /** Every mark of `s` is earlier than the next one. */
  predicate Increasing(s: seq<Tick>) {
    forall a, b :: 0 <= a < b < |s| ==> s[a].timeInSeconds < s[b].timeInSeconds
  }

  /** Unlabelled marks lie strictly inside the interval after `i`, before the
      end of the timeline, with an empty label, in increasing order. */
  lemma {:induction false} MinorsFacts(i: int, j: int, interval: int, density: int)
    requires 1 <= j <= density && interval > 0
    decreases density - j
    ensures var m := Minors(i, j, interval, density);
      Increasing(m) &&
      forall k :: 0 <= k < |m| ==>
        !m[k].isMajor && m[k].text == "" && m[k].timeInSeconds < TimelineLength as real &&
        MinorTime(i, j, interval, density) <= m[k].timeInSeconds < (i + interval) as real
  {
    if j < density {
      MinorsFacts(i, j + 1, interval, density);
      MinorTimeStep(i, j, interval, density);
    }
  }

  lemma MinorTimeStep(i: int, j: int, interval: int, density: int)
    requires 1 <= j < density && interval > 0
    ensures MinorTime(i, j, interval, density) < MinorTime(i, j + 1, interval, density)
    ensures MinorTime(i, j, interval, density) < (i + interval) as real
  {
    var step := interval as real / density as real;
    assert step > 0.0;
    assert j as real * step < density as real * step;
    assert density as real * step == interval as real;
  }

  /** Marks before `mid` followed by marks from `mid` on stay increasing. */
  lemma IncreasingJoin(a: seq<Tick>, b: seq<Tick>, mid: real)
    requires Increasing(a) && Increasing(b)
    requires forall k :: 0 <= k < |a| ==> a[k].timeInSeconds < mid
    requires forall k :: 0 <= k < |b| ==> mid <= b[k].timeInSeconds
    ensures Increasing(a + b)
  {
    var s := a + b;
    forall x, y | 0 <= x < y < |s|
      ensures s[x].timeInSeconds < s[y].timeInSeconds
    {
      if y < |a| {
        assert s[x] == a[x] && s[y] == a[y];
      } else if x < |a| {
        assert s[x] == a[x] && s[y] == b[y - |a|];
      } else {
        assert s[x] == b[x - |a|] && s[y] == b[y - |a|];
      }
    }
  }

  /** The scale from second `i` on increases and lies in [i, 60]. */
  lemma {:induction false} ScaleFromIncreasing(i: nat, interval: int, density: int, labelOf: nat -> string)
    requires interval > 0 && density >= 1
    decreases TimelineLength + 1 - i
    ensures var s := ScaleFrom(i, interval, density, labelOf);
      Increasing(s) && forall k :: 0 <= k < |s| ==> i as real <= s[k].timeInSeconds <= TimelineLength as real
  {
    if i <= TimelineLength {
      var major := Tick(i as real, labelOf(i), true);
      var minors := Minors(i, 1, interval, density);
      var rest := ScaleFrom(i + interval, interval, density, labelOf);
      var s := ScaleFrom(i, interval, density, labelOf);
      assert s == [major] + minors + rest;
      ScaleFromIncreasing(i + interval, interval, density, labelOf);
      MinorsFacts(i, 1, interval, density);
      FirstMinorAfterMajor(i, interval, density);
      IncreasingJoin([major], minors, MinorTime(i, 1, interval, density));
      IncreasingJoin([major] + minors, rest, (i + interval) as real);
      forall k | 0 <= k < |s|
        ensures i as real <= s[k].timeInSeconds <= TimelineLength as real
      {
        if k == 0 {
        } else if k <= |minors| {
          assert s[k] == minors[k - 1];
        } else {
          assert s[k] == rest[k - 1 - |minors|];
        }
      }
    }
  }

  /** Unlabelled marks have empty text and come before the end of the timeline. */
  predicate UnlabelledBeforeEnd(s: seq<Tick>) {
    forall k :: 0 <= k < |s| && !s[k].isMajor ==> s[k].text == "" && s[k].timeInSeconds < TimelineLength as real
  }

  /** Labelled marks are `i` plus multiples of the interval, labelled by `labelOf`. */
  predicate LabelledOnMultiples(s: seq<Tick>, i: int, interval: int, labelOf: nat -> string) {
    forall k :: 0 <= k < |s| && s[k].isMajor ==> MajorAt(s[k], i, interval, labelOf)
  }

  lemma {:induction false} ScaleFromUnlabelled(i: nat, interval: int, density: int, labelOf: nat -> string)
    requires interval > 0 && density >= 1
    decreases TimelineLength + 1 - i
    ensures UnlabelledBeforeEnd(ScaleFrom(i, interval, density, labelOf))
  {
    if i <= TimelineLength {
      var major := Tick(i as real, labelOf(i), true);
      var minors := Minors(i, 1, interval, density);
      var rest := ScaleFrom(i + interval, interval, density, labelOf);
      var s := ScaleFrom(i, interval, density, labelOf);
      assert s == [major] + minors + rest;
      ScaleFromUnlabelled(i + interval, interval, density, labelOf);
      MinorsFacts(i, 1, interval, density);
      forall k | 0 <= k < |s| && !s[k].isMajor
        ensures s[k].text == "" && s[k].timeInSeconds < TimelineLength as real
      {
        if 1 <= k <= |minors| {
          assert s[k] == minors[k - 1];
        } else if k > |minors| {
          assert s[k] == rest[k - 1 - |minors|];
        }
      }
    }
  }

  lemma {:induction false} ScaleFromLabelled(i: nat, interval: int, density: int, labelOf: nat -> string)
    requires interval > 0 && density >= 1
    decreases TimelineLength + 1 - i
    ensures LabelledOnMultiples(ScaleFrom(i, interval, density, labelOf), i, interval, labelOf)
  {
    if i <= TimelineLength {
      var major := Tick(i as real, labelOf(i), true);
      var minors := Minors(i, 1, interval, density);
      var rest := ScaleFrom(i + interval, interval, density, labelOf);
      var s := ScaleFrom(i, interval, density, labelOf);
      assert s == [major] + minors + rest;
      ScaleFromLabelled(i + interval, interval, density, labelOf);
      MinorsFacts(i, 1, interval, density);
      forall k | 0 <= k < |s| && s[k].isMajor
        ensures MajorAt(s[k], i, interval, labelOf)
      {
        if k == 0 {
          assert s[k] == major;
          assert (i as real).Floor == i;
        } else if k > |minors| {
          assert s[k] == rest[k - 1 - |minors|];
          MajorAtShift(s[k], i, interval, labelOf);
        }
      }
    }
  }

  /** A labelled mark at a whole second `n` in [i, 60] with `n - i` a
      multiple of the interval, labelled `labelOf(n)`. */
  predicate MajorAt(x: Tick, i: int, interval: int, labelOf: nat -> string) {
    var n := x.timeInSeconds.Floor;
    x.timeInSeconds == n as real && i <= n <= TimelineLength && interval > 0 && (n - i) % interval == 0 &&
    n >= 0 && x.text == labelOf(n)
  }

  lemma MajorAtShift(x: Tick, i: int, interval: int, labelOf: nat -> string)
    requires interval > 0 && MajorAt(x, i + interval, interval, labelOf)
    ensures MajorAt(x, i, interval, labelOf)
  {
    var n := x.timeInSeconds.Floor;
    ModShift(n - (i + interval), interval);
    assert (n - i) == (n - (i + interval)) + interval;
  }

  lemma MulAtLeast(d: int, x: int)
    requires d > 0 && x >= 1
    ensures d * x >= d
  {
  }

  /** Adding the divisor leaves a remainder unchanged. */
  lemma ModShift(a: int, d: int)
    requires d > 0
    ensures (a + d) % d == a % d
  {
    var q := a / d;
    var r := a % d;
    var q2 := (a + d) / d;
    var r2 := (a + d) % d;
    var e := q2 - q - 1;
    assert d * e == r - r2 by {
      assert a == d * q + r;
      assert a + d == d * q2 + r2;
      assert d * q2 - d * q - d == d * e;
    }
    if e >= 1 {
      MulAtLeast(d, e);
    }
  }

  lemma FirstMinorAfterMajor(i: int, interval: int, density: int)
    requires interval > 0 && density >= 1
    ensures i as real < MinorTime(i, 1, interval, density)
  {
    assert interval as real / density as real > 0.0;
  }

  /** Every `i + n * interval` up to 60 is a labelled mark of the scale from `i`. */
  lemma {:induction false} ScaleFromHasMultiples(i: nat, interval: int, density: int,
                                                 labelOf: nat -> string, n: nat)
    requires interval > 0 && density >= 1
    requires i <= n <= TimelineLength && (n - i) % interval == 0
    decreases n - i
    ensures Tick(n as real, labelOf(n), true) in ScaleFrom(i, interval, density, labelOf)
  {
    var major := Tick(i as real, labelOf(i), true);
    var minors := Minors(i, 1, interval, density);
    var rest := ScaleFrom(i + interval, interval, density, labelOf);
    assert ScaleFrom(i, interval, density, labelOf) == [major] + minors + rest;
    if n > i {
      NextMultiple(n, i, interval);
      ScaleFromHasMultiples(i + interval, interval, density, labelOf, n);
    }
  }

  /** A multiple of the interval after `i` is at least one interval after it. */
  lemma NextMultiple(n: int, i: int, interval: int)
    requires interval > 0 && i < n && (n - i) % interval == 0
    ensures n >= i + interval && (n - (i + interval)) % interval == 0
  {
    ModShift(n - (i + interval), interval);
    assert n - (i + interval) + interval == n - i;
  }

  /** Labelled marks carry a non-empty text. */
  predicate LabelledHaveText(s: seq<Tick>) {
    forall k :: 0 <= k < |s| && s[k].isMajor ==> s[k].text != ""
  }

  /** The scale increases; its labelled marks are exactly the multiples of the
      interval in [0, 60], each labelled with its clock time, which is never
      empty; and its unlabelled marks have empty text and come before 60. */
  lemma ScaleProperties(zoom: real)
    ensures Increasing(Scale(zoom))
    ensures LabelledOnMultiples(Scale(zoom), 0, MajorInterval(zoom), Label)
    ensures LabelledHaveText(Scale(zoom))
    ensures UnlabelledBeforeEnd(Scale(zoom))
  {
    var interval := MajorInterval(zoom);
    var s := ScaleFrom(0, interval, MinorDensity(zoom), Label);
    assert Scale(zoom) == s;
    ScaleFromIncreasing(0, interval, MinorDensity(zoom), Label);
    ScaleFromUnlabelled(0, interval, MinorDensity(zoom), Label);
    ScaleFromLabelled(0, interval, MinorDensity(zoom), Label);
    forall k | 0 <= k < |s| && s[k].isMajor
      ensures s[k].text != ""
    {
      assert MajorAt(s[k], 0, interval, Label);
      LabelNonEmpty(s[k].timeInSeconds.Floor);
    }
  }

  lemma LabelNonEmpty(n: nat)
    ensures Label(n) != ""
  {
    LabelReadsBack(n);
  }

  lemma ScaleHasEveryMultiple(zoom: real, n: nat)
    requires n <= TimelineLength && n % MajorInterval(zoom) == 0
    ensures Tick(n as real, Label(n), true) in Scale(zoom)
  {
    ScaleFromHasMultiples(0, MajorInterval(zoom), MinorDensity(zoom), Label, n);
  }

  /** A label reads back as the clock time of its second, with `00` frames. */
  lemma LabelReadsBack(n: nat)
    ensures Parse(Label(n), 4) == Some([n / 3600 % 24, n / 60 % 60, n % 60, 0])
    ensures Label(n) != ""
  {
    ParseRender([n / 3600 % 24, n / 60 % 60, n % 60, 0]);
  }

  // ---------------------------------------------------------------- deleting the selection

  predicate KeepsOther(selected: string, x: TrackItem) {
    x.id != selected
  }

  /** `timelineItems.filter(item => item.id !== selectedMediaItem)`. */
  function DeleteSelected(items: seq<TrackItem>, selected: string): (r: seq<TrackItem>)
    ensures |r| <= |items|
  {
    Filter(items, x => KeepsOther(selected, x))
  }

  /** Deleting keeps exactly the items of another id, in their order, and
      leaves a list without such an item unchanged. */
  lemma DeleteRemovesExactlySelected(items: seq<TrackItem>, more: seq<TrackItem>, selected: string)
    ensures forall x :: x in DeleteSelected(items, selected) <==> x in items && x.id != selected
    ensures DeleteSelected(items + more, selected) == DeleteSelected(items, selected) + DeleteSelected(more, selected)
    ensures (forall k :: 0 <= k < |items| ==> items[k].id != selected) ==> DeleteSelected(items, selected) == items
  {
    FilterMembership(items, x => KeepsOther(selected, x));
    FilterConcat(items, more, x => KeepsOther(selected, x));
    if forall k :: 0 <= k < |items| ==> items[k].id != selected {
      FilterAllPass(items, x => KeepsOther(selected, x));
    }
  }

  /** Deleting the same id twice removes nothing more. */
  lemma DeleteIdempotent(items: seq<TrackItem>, selected: string)
    ensures DeleteSelected(DeleteSelected(items, selected), selected) == DeleteSelected(items, selected)
  {
    var d := DeleteSelected(items, selected);
    FilterMembership(items, x => KeepsOther(selected, x));
    assert forall k :: 0 <= k < |d| ==> d[k] in d;
    FilterAllPass(d, x => KeepsOther(selected, x));
  }

  // ---------------------------------------------------------------- playback cursor

  /** The local position one animation frame advances to from `prev` after
      `deltaTime` seconds: a step past the end of the timeline is not taken. */
  function Advance(prev: real, deltaTime: real): real {
    if prev + deltaTime > TimelineLength as real then prev else prev + deltaTime
  }

  /** An item appended after the selection changed is not in the list the
      Delete handler closed over: deleting from that list drops it, though
      it is not the selected clip, while deleting from the current list
      would keep it. */
  lemma StaleDeleteDropsNewItems(captured: seq<TrackItem>, b: TrackItem, selected: string)
    requires b !in captured && b.id != selected
    ensures b !in DeleteSelected(captured, selected)
    ensures b in DeleteSelected(captured + [b], selected)
  {
    DeleteRemovesExactlySelected(captured, [], selected);
    DeleteRemovesExactlySelected(captured + [b], [], selected);
  }

  /** A frame never moves the local position past 60 from a position at most
      60, it reaches 60 only by landing on it exactly, and for a non-negative
      step a position below 60 either advances by the whole step or stays. */
  lemma AdvanceStaysOnTimeline(prev: real, deltaTime: real)
    ensures prev <= TimelineLength as real ==> Advance(prev, deltaTime) <= TimelineLength as real
    ensures prev < TimelineLength as real ==>
      (Advance(prev, deltaTime) >= TimelineLength as real <==> prev + deltaTime == TimelineLength as real)
    ensures Advance(prev, deltaTime) == prev + deltaTime || Advance(prev, deltaTime) == prev
    ensures prev + deltaTime <= TimelineLength as real ==> Advance(prev, deltaTime) == prev + deltaTime
  {
  }

  /** `Math.min(Math.max(mouseX / (pixelsPerSecond * zoom), 0), 60)`. */
  function DragPosition(mouseX: real, zoom: real): real
    requires zoom > 0.0
  {
    var p := mouseX / (PixelsPerSecond * zoom);
    var lower := if p >= 0.0 then p else 0.0;
    if lower <= TimelineLength as real then lower else TimelineLength as real
  }

  /** A dragged position lies on the timeline, is the pointer's second when
      that second is on the timeline, and moves with the pointer. */
  lemma DragClampsToTimeline(mouseX: real, other: real, zoom: real)
    requires zoom > 0.0
    ensures 0.0 <= DragPosition(mouseX, zoom) <= TimelineLength as real
    ensures var p := mouseX / (PixelsPerSecond * zoom);
      0.0 <= p <= TimelineLength as real ==> DragPosition(mouseX, zoom) == p
    ensures mouseX <= other ==> DragPosition(mouseX, zoom) <= DragPosition(other, zoom)
  {
    var w := PixelsPerSecond * zoom;
    assert w > 0.0;
    if mouseX <= other {
      assert mouseX / w <= other / w;
    }
  }

  /** The panel's state: the timeline items, the selected item's id (`""`
      for none), the local and shared playback positions, whether playback
      runs, the time of the last animation frame in milliseconds, and the zoom.
      `keyItems` is the list of items the registered Delete handler closed
      over: its effect runs on mount and whenever the selection changes, so
      it is the list as it was at the last selection change. */
  class Panel {
    var items: seq<TrackItem>
    var keyItems: seq<TrackItem>
    var selected: string
    var localPosition: real
    var position: real
    var playing: bool
    var lastUpdate: real
    var zoom: real

    constructor(items: seq<TrackItem>, position: real, zoom: real, now: real)
      ensures this.items == items && keyItems == items && selected == "" && localPosition == position
      ensures this.position == position && !playing && lastUpdate == now && this.zoom == zoom
    {
      this.items := items;
      keyItems := items;
      selected := "";
      localPosition := position;
      this.position := position;
      playing := false;
      lastUpdate := now;
      this.zoom := zoom;
    }

    /** A click on a clip selects it. A new selection re-runs the key
        handler's effect, which then closes over the current items. */
    method Select(id: string)
      modifies this
      ensures selected == id
      ensures keyItems == if id != old(selected) then old(items) else old(keyItems)
      ensures items == old(items) && localPosition == old(localPosition) && position == old(position)
      ensures playing == old(playing) && lastUpdate == old(lastUpdate) && zoom == old(zoom)
    {
      if id != selected {
        keyItems := items;
      }
      selected := id;
    }

    /** The shared list of timeline items changed elsewhere (a drop onto a
        track, say). The selection is unchanged, so the key handler keeps the
        list it closed over. */
    method ItemsChanged(newItems: seq<TrackItem>)
      modifies this
      ensures items == newItems
      ensures keyItems == old(keyItems) && selected == old(selected)
      ensures localPosition == old(localPosition) && position == old(position)
      ensures playing == old(playing) && lastUpdate == old(lastUpdate) && zoom == old(zoom)
    {
      items := newItems;
    }

    /** The key handler: Delete with a selection sets the items to the
        captured list without the selected clip's items, and clears the
        selection (which re-runs the effect over the new list); any other key,
        or no selection, changes nothing. Items added since the selection
        changed are not in the captured list, so they are dropped too. */
    method KeyDown(key: string)
      modifies this
      ensures key == "Delete" && old(selected) != "" ==>
        items == DeleteSelected(old(keyItems), old(selected)) && selected == "" && keyItems == items
      ensures !(key == "Delete" && old(selected) != "") ==>
        items == old(items) && selected == old(selected) && keyItems == old(keyItems)
      ensures key == "Delete" && old(selected) != "" ==>
        forall x :: x in items <==> x in old(keyItems) && x.id != old(selected)
      ensures localPosition == old(localPosition) && position == old(position)
      ensures playing == old(playing) && lastUpdate == old(lastUpdate) && zoom == old(zoom)
    {
      if key == "Delete" && selected != "" {
        DeleteRemovesExactlySelected(keyItems, [], selected);
        items := DeleteSelected(keyItems, selected);
        keyItems := items;
        selected := "";
      }
    }

    /** One animation frame at time `now` (milliseconds). While playing, the
        local position advances by the elapsed seconds; a step past 60 is not
        taken, and its target goes to the shared position instead. */
    method AnimationFrame(now: real)
      modifies this
      ensures !old(playing) ==> localPosition == old(localPosition) && position == old(position) &&
                                lastUpdate == old(lastUpdate)
      ensures old(playing) ==>
        var next := old(localPosition) + (now - old(lastUpdate)) / 1000.0;
        lastUpdate == now &&
        localPosition == Advance(old(localPosition), (now - old(lastUpdate)) / 1000.0) &&
        position == (if next > TimelineLength as real then next else old(position))
      ensures old(localPosition) <= TimelineLength as real ==> localPosition <= TimelineLength as real
      ensures items == old(items) && selected == old(selected) && playing == old(playing) && zoom == old(zoom)
      ensures keyItems == old(keyItems)
    {
      if !playing {
        return;
      }
      var deltaTime := (now - lastUpdate) / 1000.0;
      lastUpdate := now;
      var newPositionInSeconds := localPosition + deltaTime;
      AdvanceStaysOnTimeline(localPosition, deltaTime);
      if newPositionInSeconds > TimelineLength as real {
        position := newPositionInSeconds;
      } else {
        localPosition := newPositionInSeconds;
      }
    }

    /** The effect run when `playing` changes: the shared position takes the
        local one, and starting playback restarts the frame clock at `now`. */
    method PlayingChanged(now: real)
      modifies this
      ensures position == old(localPosition)
      ensures lastUpdate == (if old(playing) then now else old(lastUpdate))
      ensures items == old(items) && selected == old(selected) && localPosition == old(localPosition)
      ensures playing == old(playing) && zoom == old(zoom)
      ensures keyItems == old(keyItems)
    {
      position := localPosition;
      if playing {
        lastUpdate := now;
      }
    }

    /** The effect run when a position changes: while paused the local
        position follows the shared one, and a local position of 60 or more
        (as rendered, before that update) stops playback. */
    method PositionsChanged()
      modifies this
      ensures localPosition == (if old(playing) then old(localPosition) else old(position))
      ensures playing == (old(playing) && old(localPosition) < TimelineLength as real)
      ensures old(localPosition) >= TimelineLength as real ==> !playing
      ensures items == old(items) && selected == old(selected) && position == old(position)
      ensures lastUpdate == old(lastUpdate) && zoom == old(zoom)
      ensures keyItems == old(keyItems)
    {
      var rendered := localPosition;
      if !playing {
        localPosition := position;
      }
      if rendered >= TimelineLength as real {
        playing := false;
      }
    }

    /** Dragging the indicator to pointer offset `mouseX` sets both positions
        to the clamped second under the pointer. */
    method Drag(mouseX: real)
      requires zoom > 0.0
      modifies this
      ensures localPosition == DragPosition(mouseX, old(zoom)) && position == localPosition
      ensures 0.0 <= position <= TimelineLength as real
      ensures items == old(items) && selected == old(selected) && playing == old(playing)
      ensures lastUpdate == old(lastUpdate) && zoom == old(zoom)
      ensures keyItems == old(keyItems)
    {
      DragClampsToTimeline(mouseX, mouseX, zoom);
      var newPlaybackPosition := DragPosition(mouseX, zoom);
      localPosition := newPlaybackPosition;
      position := newPlaybackPosition;
    }
  }

  /** Playback stops at the end only by landing on it: from a local position
      below 60, a frame whose step overshoots 60 leaves the local position
      where it was, so the following position effect keeps playing. */
  lemma OvershootKeepsPlaying(prev: real, deltaTime: real)
    requires prev < TimelineLength as real && prev + deltaTime > TimelineLength as real
    ensures Advance(prev, deltaTime) == prev && Advance(prev, deltaTime) < TimelineLength as real
  {
  }
}
