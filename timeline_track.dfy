/** One track's geometry (`TimelineTrack`): the track is as wide as its
    clips' total duration, but never narrower than 60 seconds; each clip is
    as wide as its own duration; and the whole track is shifted left by the
    timeline offset. Widths are seconds times pixels per second times zoom. */
module TimelineTrack {

  /** The part of a clip the track draws: its name and duration in seconds. */
  datatype TrackEntry = TrackEntry(name: string, duration: real)

  /** The shortest width of a track, in seconds. */
  const MinDuration: real := 60.0

  /** `trackItems.reduce((sum, item) => sum + item.duration, 0)`. */
  function TotalDuration(items: seq<TrackEntry>): real
    decreases |items|
  {
    if items == [] then 0.0 else TotalDuration(items[..|items| - 1]) + items[|items| - 1].duration
  }

  /** `Math.max(totalDuration, 60) * pixelsPerSecond * zoom`. */
  function ContainerWidth(items: seq<TrackEntry>, pixelsPerSecond: real, zoom: real): real {
    var total := TotalDuration(items);
    (if total >= MinDuration then total else MinDuration) * pixelsPerSecond * zoom
  }

  /** The drawn width of one clip. */
  function ItemWidth(item: TrackEntry, pixelsPerSecond: real, zoom: real): real {
    item.duration * pixelsPerSecond * zoom
  }

  /** How far the track is moved to the left, in pixels. */
  function TrackShift(timelineOffset: real, pixelsPerSecond: real, zoom: real): real {
    timelineOffset * pixelsPerSecond * zoom
  }

  /** The widths of all clips added up, margins excluded. */
  function WidthsSum(items: seq<TrackEntry>, pixelsPerSecond: real, zoom: real): real
    decreases |items|
  {
    if items == [] then 0.0
    else WidthsSum(items[..|items| - 1], pixelsPerSecond, zoom) + ItemWidth(items[|items| - 1], pixelsPerSecond, zoom)
  }

  /** An empty track has total duration 0, and appending a clip adds its duration. */
  lemma TotalOfAppend(items: seq<TrackEntry>, x: TrackEntry)
    ensures TotalDuration([]) == 0.0
    ensures TotalDuration(items + [x]) == TotalDuration(items) + x.duration
  {
    assert (items + [x])[..|items + [x]| - 1] == items;
  }

  /** Clips of non-negative duration give a non-negative total, at least
      as long as each clip. */
  lemma {:induction false} TotalCoversEachClip(items: seq<TrackEntry>)
    requires forall k :: 0 <= k < |items| ==> items[k].duration >= 0.0
    ensures TotalDuration(items) >= 0.0
    ensures forall k :: 0 <= k < |items| ==> items[k].duration <= TotalDuration(items)
  {
    if items != [] {
      var init := items[..|items| - 1];
      TotalCoversEachClip(init);
      assert forall k :: 0 <= k < |init| ==> items[k] == init[k];
    }
  }

  /** The clips' widths add up to the total duration in pixels. */
  lemma {:induction false} WidthsSumIsTotal(items: seq<TrackEntry>, pixelsPerSecond: real, zoom: real)
    ensures WidthsSum(items, pixelsPerSecond, zoom) == TotalDuration(items) * pixelsPerSecond * zoom
  {
    if items != [] {
      var init := items[..|items| - 1];
      var d := items[|items| - 1].duration;
      WidthsSumIsTotal(init, pixelsPerSecond, zoom);
      var p := pixelsPerSecond * zoom;
      assert (TotalDuration(init) + d) * p == TotalDuration(init) * p + d * p;
    }
  }

  /** The track is at least 60 seconds wide, and exactly so while its clips
      last at most 60 seconds. */
  lemma ContainerAtLeastMinimum(items: seq<TrackEntry>, pixelsPerSecond: real, zoom: real)
    requires pixelsPerSecond >= 0.0 && zoom >= 0.0
    ensures ContainerWidth(items, pixelsPerSecond, zoom) >= MinDuration * pixelsPerSecond * zoom
    ensures TotalDuration(items) <= MinDuration ==>
      ContainerWidth(items, pixelsPerSecond, zoom) == MinDuration * pixelsPerSecond * zoom
  {
    var total := TotalDuration(items);
    var p := pixelsPerSecond * zoom;
    assert p >= 0.0;
    if total >= MinDuration {
      assert total * p >= MinDuration * p;
    }
  }

  /** For non-negative scale factors every clip fits: their widths together
      never exceed the track's width. */
  lemma ClipsFitInTrack(items: seq<TrackEntry>, pixelsPerSecond: real, zoom: real)
    requires pixelsPerSecond >= 0.0 && zoom >= 0.0
    ensures WidthsSum(items, pixelsPerSecond, zoom) <= ContainerWidth(items, pixelsPerSecond, zoom)
  {
    WidthsSumIsTotal(items, pixelsPerSecond, zoom);
    var total := TotalDuration(items);
    var p := pixelsPerSecond * zoom;
    assert p >= 0.0;
    if total < MinDuration {
      assert total * p <= MinDuration * p;
    }
  }

  /** The shift is the offset in pixels: linear in the offset, 0 at offset 0. */
  lemma ShiftIsOffsetInPixels(a: real, b: real, pixelsPerSecond: real, zoom: real)
    ensures TrackShift(0.0, pixelsPerSecond, zoom) == 0.0
    ensures TrackShift(a + b, pixelsPerSecond, zoom) ==
      TrackShift(a, pixelsPerSecond, zoom) + TrackShift(b, pixelsPerSecond, zoom)
  {
    var p := pixelsPerSecond * zoom;
    assert (a + b) * p == a * p + b * p;
  }
}
