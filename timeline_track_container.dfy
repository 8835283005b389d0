/** Placing dropped files on the timeline (`TimelineTrackContainer`): a
    video file becomes a clip on the video track, followed by a companion
    audio clip once its audio can be routed; an audio file becomes a clip on
    the audio track. Each new clip starts where the last-listed clip of the
    file's track ends, and is appended to the list of timeline items. */
module TimelineTrackContainer {
  import opened Common
  import opened Media

  datatype TrackType = Video | Audio

  /** One clip, with the fields the container builds for it. */
  datatype TrackItem = TrackItem(
    id: string,
    kind: TrackType,
    file: MediaFile,
    name: string,
    durationInS: real,
    durationInPx: real,
    startPosition: real,
    startTime: real,
    endPosition: real)

  /** The track a file's predecessor is looked up on: `video` for a video
      type and `audio` for every other type. */
  function LookupTrack(f: MediaFile): TrackType {
    if IsVideo(f) then Video else Audio
  }

  /** Index of the last item on track `t`, if the track has any. */
  function LastIndexOnTrack(items: seq<TrackItem>, t: TrackType): (r: Option<nat>)
    decreases |items|
    ensures r.Some? ==> r.value < |items| && items[r.value].kind == t
    ensures r.Some? ==> forall j :: r.value < j < |items| ==> items[j].kind != t
    ensures r.None? <==> forall j :: 0 <= j < |items| ==> items[j].kind != t
  {
    if items == [] then None
    else if items[|items| - 1].kind == t then Some(|items| - 1)
    else LastIndexOnTrack(items[..|items| - 1], t)
  }

  /** `items.filter(item => item.type === t).slice(-1)[0]`. */
  function LastOnTrack(items: seq<TrackItem>, t: TrackType): (r: Option<TrackItem>)
    ensures r.Some? ==> r.value in items && r.value.kind == t
    ensures r.None? <==> forall j :: 0 <= j < |items| ==> items[j].kind != t
  {
    match LastIndexOnTrack(items, t)
    case None => None
    case Some(k) => Some(items[k])
  }

  predicate OnTrack(t: TrackType, x: TrackItem) {
    x.kind == t
  }

  /** The items of one track, in list order. */
  function TrackOf(items: seq<TrackItem>, t: TrackType): seq<TrackItem> {
    Filter(items, x => OnTrack(t, x))
  }

  /** The pixel where an item ends, as the container computes it. */
  function End(x: TrackItem): real {
    x.startPosition + x.durationInPx
  }

  /** Where the next item of a track starts: after the last one, or at 0. */
  function StartAfter(last: Option<TrackItem>): real {
    match last
    case None => 0.0
    case Some(x) => End(x)
  }

  /** The item `processDurationAndAddItem` builds. */
  function MakeItem(id: string, kind: TrackType, file: MediaFile, duration: real,
                    pixelsPerSecond: real, start: real): TrackItem
  {
    var px := duration * pixelsPerSecond;
    TrackItem(id, kind, file, if kind == Audio then file.name + " (audio)" else file.name,
              duration, px, start, 0.0, start + px)
  }

  /** The timeline items held by the editor. */
  class Timeline {
    var items: seq<TrackItem>
    const pixelsPerSecond: real

    constructor(pixelsPerSecond: real)
      ensures items == [] && this.pixelsPerSecond == pixelsPerSecond
    {
      items := [];
      this.pixelsPerSecond := pixelsPerSecond;
    }

    /** `processDurationAndAddItem(duration, kind)`, with the predecessor
        that was looked up when the file arrived. */
    method AddItem(id: string, file: MediaFile, duration: real, kind: TrackType,
                   last: Option<TrackItem>)
      modifies this
      ensures items == old(items) + [MakeItem(id, kind, file, duration, pixelsPerSecond, StartAfter(last))]
    {
      items := items + [MakeItem(id, kind, file, duration, pixelsPerSecond, StartAfter(last))];
    }

    /** `handleFileProcessing(file)`: `id` is the fresh identifier, `duration`
        the media's loaded duration, and `audioRouted` whether the video's
        audio could be routed when it started playing. The predecessor is
        taken once, from the items as they were when the file arrived. */
    method HandleFile(file: MediaFile, id: string, duration: real, audioRouted: bool)
      modifies this
      ensures var start := StartAfter(LastOnTrack(old(items), LookupTrack(file)));
        if IsVideo(file) then
          items == old(items) + [MakeItem(id, Video, file, duration, pixelsPerSecond, start)] +
            (if audioRouted then [MakeItem(id, Audio, file, duration, pixelsPerSecond, start)] else [])
        else if IsAudio(file) then
          items == old(items) + [MakeItem(id, Audio, file, duration, pixelsPerSecond, start)]
        else items == old(items)
    {
      var last := LastOnTrack(items, LookupTrack(file));
      if IsVideo(file) {
        AddItem(id, file, duration, Video, last);
        if audioRouted {
          AddItem(id, file, duration, Audio, last);
        }
      } else if IsAudio(file) {
        AddItem(id, file, duration, Audio, last);
      }
    }
  }

  /** The predecessor is the last element of the track's own list. */
  /** An appended item becomes the last of its track and leaves the other
      track's last item as it was. */
  lemma AppendedIsLast(items: seq<TrackItem>, x: TrackItem, t: TrackType)
    ensures LastOnTrack(items + [x], x.kind) == Some(x)
    ensures t != x.kind ==> LastOnTrack(items + [x], t) == LastOnTrack(items, t)
  {
    var s := items + [x];
    assert s[..|s| - 1] == items;
    if t != x.kind {
      match LastIndexOnTrack(items, t)
      case None =>
      case Some(k) =>
        assert s[k] == items[k];
    }
  }

  lemma {:induction false} LastOnTrackIsLastOfTrack(items: seq<TrackItem>, t: TrackType)
    ensures var track := TrackOf(items, t);
      LastOnTrack(items, t) == if track == [] then None else Some(track[|track| - 1])
  {
    if items != [] {
      var init := items[..|items| - 1];
      var x := items[|items| - 1];
      assert items == init + [x];
      AppendedIsLast(init, x, t);
      FilterConcat(init, [x], y => OnTrack(t, y));
      assert [x][1..] == [];
      LastOnTrackIsLastOfTrack(init, t);
    }
  }

  /** Two files in a row on the same track: the second starts where the
      first one ends. */
  lemma ConsecutiveItemsAbut(items: seq<TrackItem>, id: string, kind: TrackType, file: MediaFile,
                             duration: real, pixelsPerSecond: real, start: real)
    ensures var x := MakeItem(id, kind, file, duration, pixelsPerSecond, start);
      StartAfter(LastOnTrack(items + [x], kind)) == x.endPosition &&
      x.endPosition == start + duration * pixelsPerSecond
  {
    var x := MakeItem(id, kind, file, duration, pixelsPerSecond, start);
    AppendedIsLast(items, x, kind);
  }

  /** When the track's last-listed item is also its rightmost, a new item of
      non-negative width placed after it overlaps no item of the track. */
  lemma NewItemOverlapsNothing(items: seq<TrackItem>, t: TrackType, id: string, file: MediaFile,
                               duration: real, pixelsPerSecond: real)
    requires duration >= 0.0 && pixelsPerSecond >= 0.0
    requires LastOnTrack(items, t).Some? ==>
      forall j :: 0 <= j < |items| && items[j].kind == t ==> End(items[j]) <= End(LastOnTrack(items, t).value)
    ensures var x := MakeItem(id, t, file, duration, pixelsPerSecond, StartAfter(LastOnTrack(items, t)));
      x.startPosition <= x.endPosition &&
      forall j :: 0 <= j < |items| && items[j].kind == t ==> End(items[j]) <= x.startPosition
  {
  }
}
