/** The timeline viewport (`ZoomableContainer`): a zoom factor and a
    horizontal scroll offset in pixels. Alt+wheel zooms around the pointer,
    a plain wheel scrolls, and an autoscroll rule brings the playback
    indicator back into view when it leaves the visible window. */
module ZoomableContainer {

  const MinZoom: real := 0.5
  const MaxZoom: real := 10.0
  /** Zoom change per wheel unit; scrolling down (positive `deltaY`) zooms out. */
  const ZoomPerWheelUnit: real := -0.002
  /** The timeline length the zoom computation assumes, in seconds. */
  const TimelineSeconds: real := 60.0
  /** How far left of the indicator autoscroll puts the window's edge. */
  const AutoscrollMargin: real := 10.0

  function Max(a: real, b: real): real {
    if a >= b then a else b
  }

  function Min(a: real, b: real): real {
    if a <= b then a else b
  }

  /** `Math.min(Math.max(z, 0.5), 10)`. */
  function ClampZoom(z: real): (r: real)
    ensures MinZoom <= r <= MaxZoom
    ensures MinZoom <= z <= MaxZoom ==> r == z
  {
    Min(Max(z, MinZoom), MaxZoom)
  }

  /** The zoom after one alt+wheel event. */
  function ZoomAfterWheel(zoom: real, deltaY: real): real {
    ClampZoom(zoom + deltaY * ZoomPerWheelUnit)
  }

  /** Wheeling further down never zooms in: the new zoom is anti-monotone in `deltaY`. */
  lemma WheelDownZoomsOut(zoom: real, d1: real, d2: real)
    requires d1 <= d2
    ensures ZoomAfterWheel(zoom, d2) <= ZoomAfterWheel(zoom, d1)
  {
  }

  /** `timelinePanelWidth || 1`: a zero width counts as 1. */
  function PanelOrOne(panelWidth: real): real {
    if panelWidth == 0.0 then 1.0 else panelWidth
  }

  /** The scroll offset alt+wheel sets, as written: the pointer's offset in
      the content is taken as a fraction of the panel's width, then scaled by
      the whole timeline's new width. */
  function ZoomScrollAsWritten(mouseX: real, scroll: real, panelWidth: real,
                               pixelsPerSecond: real, newZoom: real): real
  {
    (mouseX + scroll) / PanelOrOne(panelWidth) * (TimelineSeconds * pixelsPerSecond * newZoom) - mouseX
  }

  /** The scroll offset that keeps the content under the pointer in place:
      the pointer's offset is a fraction of the timeline's old width. */
  function ZoomScroll(mouseX: real, scroll: real, pixelsPerSecond: real,
                      oldZoom: real, newZoom: real): real
    requires pixelsPerSecond > 0.0 && oldZoom > 0.0
  {
    (mouseX + scroll) / (TimelineSeconds * pixelsPerSecond * oldZoom) *
      (TimelineSeconds * pixelsPerSecond * newZoom) - mouseX
  }

  /** The second the pointer is over, for a scroll offset and a zoom. */
  function SecondUnderPointer(mouseX: real, scroll: real, pixelsPerSecond: real, zoom: real): real
    requires pixelsPerSecond > 0.0 && zoom > 0.0
  {
    (mouseX + scroll) / (pixelsPerSecond * zoom)
  }

  /** Zooming with `ZoomScroll` leaves the same second under the pointer. */
  lemma ZoomScrollKeepsPointer(mouseX: real, scroll: real, pixelsPerSecond: real,
                               oldZoom: real, newZoom: real)
    requires pixelsPerSecond > 0.0 && oldZoom > 0.0 && newZoom > 0.0
    ensures SecondUnderPointer(mouseX, ZoomScroll(mouseX, scroll, pixelsPerSecond, oldZoom, newZoom),
                               pixelsPerSecond, newZoom)
         == SecondUnderPointer(mouseX, scroll, pixelsPerSecond, oldZoom)
  {
    var w0 := TimelineSeconds * pixelsPerSecond * oldZoom;
    var w1 := TimelineSeconds * pixelsPerSecond * newZoom;
    var c := mouseX + scroll;
    var s1 := ZoomScroll(mouseX, scroll, pixelsPerSecond, oldZoom, newZoom);
    assert s1 + mouseX == c / w0 * w1;
    assert c / w0 * w1 / (pixelsPerSecond * newZoom) == c / w0 * TimelineSeconds;
    assert c / w0 * TimelineSeconds == c / (pixelsPerSecond * oldZoom);
  }

  /** When the panel is exactly as wide as the timeline, the written formula
      and `ZoomScroll` agree. */
  lemma AsWrittenAgreesForFullWidthPanel(mouseX: real, scroll: real, pixelsPerSecond: real,
                                         oldZoom: real, newZoom: real)
    requires pixelsPerSecond > 0.0 && oldZoom > 0.0
    ensures ZoomScrollAsWritten(mouseX, scroll, TimelineSeconds * pixelsPerSecond * oldZoom, pixelsPerSecond, newZoom)
         == ZoomScroll(mouseX, scroll, pixelsPerSecond, oldZoom, newZoom)
  {
    var w := TimelineSeconds * pixelsPerSecond * oldZoom;
    assert pixelsPerSecond * oldZoom > 0.0;
    assert PanelOrOne(w) == w;
  }

  /** With the written formula the pointer lands on the second that is the
      same fraction of the timeline as the pointer's content offset is of the
      panel width (a zero width counting as 1). */
  lemma AsWrittenPointsAtPanelFraction(mouseX: real, scroll: real, panelWidth: real,
                                       pixelsPerSecond: real, newZoom: real)
    requires pixelsPerSecond > 0.0 && newZoom > 0.0
    ensures SecondUnderPointer(mouseX, ZoomScrollAsWritten(mouseX, scroll, panelWidth, pixelsPerSecond, newZoom),
                               pixelsPerSecond, newZoom)
         == (mouseX + scroll) / PanelOrOne(panelWidth) * TimelineSeconds
  {
    var f := (mouseX + scroll) / PanelOrOne(panelWidth);
    var v := pixelsPerSecond * newZoom;
    var s1 := ZoomScrollAsWritten(mouseX, scroll, panelWidth, pixelsPerSecond, newZoom);
    assert s1 + mouseX == f * (TimelineSeconds * v);
    assert f * (TimelineSeconds * v) / v == f * TimelineSeconds;
  }

  /** For a positive panel width the written formula and `ZoomScroll` agree
      exactly when the pointer is at content offset 0 or the panel is as wide
      as the whole timeline. */
  lemma AsWrittenAgreesIff(mouseX: real, scroll: real, panelWidth: real, pixelsPerSecond: real,
                           oldZoom: real, newZoom: real)
    requires panelWidth > 0.0 && pixelsPerSecond > 0.0 && oldZoom > 0.0 && newZoom > 0.0
    ensures ZoomScrollAsWritten(mouseX, scroll, panelWidth, pixelsPerSecond, newZoom)
         == ZoomScroll(mouseX, scroll, pixelsPerSecond, oldZoom, newZoom)
        <==> mouseX + scroll == 0.0 || panelWidth == TimelineSeconds * pixelsPerSecond * oldZoom
  {
    var c := mouseX + scroll;
    var w0 := TimelineSeconds * pixelsPerSecond * oldZoom;
    var w1 := TimelineSeconds * pixelsPerSecond * newZoom;
    assert PanelOrOne(panelWidth) == panelWidth;
    assert w0 > 0.0 && w1 > 0.0;
    if c / panelWidth * w1 == c / w0 * w1 {
      assert c / panelWidth == c / w0;
      if c != 0.0 {
        assert c * w0 == c * panelWidth;
      }
    }
  }

  /** A 1000-pixel panel over a 6000-pixel timeline at zoom 1, pointer at
      500 and no scroll: an event that leaves the zoom unchanged moves the
      scroll to 2500, so the pointer goes from second 5 to second 30. */
  lemma AsWrittenMovesPointer()
    ensures ZoomAfterWheel(1.0, 0.0) == 1.0
    ensures ZoomScrollAsWritten(500.0, 0.0, 1000.0, 100.0, 1.0) == 2500.0
    ensures SecondUnderPointer(500.0, 0.0, 100.0, 1.0) == 5.0
    ensures SecondUnderPointer(500.0, 2500.0, 100.0, 1.0) == 30.0
    ensures ZoomScroll(500.0, 0.0, 100.0, 1.0, 1.0) == 0.0
  {
  }

  /** The scroll offset the autoscroll effect leaves for indicator pixel `px`. */
  function AutoscrollTarget(px: real, scroll: real, panelWidth: real): real {
    if px < scroll then Max(0.0, px - AutoscrollMargin)
    else if px > scroll + panelWidth then px - AutoscrollMargin
    else scroll
  }

  /** An indicator inside the window leaves the scroll alone; one left of it
      scrolls to a non-negative offset; and for a panel of at least the margin's
      width the indicator ends up inside the window. */
  lemma AutoscrollShowsIndicator(px: real, scroll: real, panelWidth: real)
    ensures scroll <= px <= scroll + panelWidth ==> AutoscrollTarget(px, scroll, panelWidth) == scroll
    ensures px < scroll ==> AutoscrollTarget(px, scroll, panelWidth) >= 0.0
    ensures scroll <= px && px > scroll + panelWidth ==> AutoscrollTarget(px, scroll, panelWidth) == px - AutoscrollMargin
    ensures px >= 0.0 && panelWidth >= AutoscrollMargin ==>
      var s := AutoscrollTarget(px, scroll, panelWidth); s <= px <= s + panelWidth
  {
  }

  class Viewport {
    var zoom: real
    var scroll: real
    var panelWidth: real
    const pixelsPerSecond: real

    predicate Valid()
      reads this
    {
      pixelsPerSecond > 0.0 && zoom > 0.0
    }

    constructor(pixelsPerSecond: real, zoom: real, panelWidth: real)
      requires pixelsPerSecond > 0.0 && zoom > 0.0
      ensures Valid()
      ensures this.pixelsPerSecond == pixelsPerSecond && this.zoom == zoom
      ensures this.panelWidth == panelWidth && scroll == 0.0
    {
      this.pixelsPerSecond := pixelsPerSecond;
      this.zoom := zoom;
      this.panelWidth := panelWidth;
      scroll := 0.0;
    }

    /** Alt+wheel at pointer offset `mouseX`: the zoom moves by the wheel and is
        clamped to [0.5, 10], and the scroll is set by the written formula. The
        pointer then lands on the second that is the same fraction of the
        timeline as its content offset is of the panel width; only for a
        panel as wide as the timeline is that the second it was over. */
    method ZoomWheel(mouseX: real, deltaY: real)
      requires Valid()
      modifies this
      ensures Valid() && MinZoom <= zoom <= MaxZoom
      ensures zoom == ZoomAfterWheel(old(zoom), deltaY)
      ensures scroll == ZoomScrollAsWritten(mouseX, old(scroll), panelWidth, pixelsPerSecond, zoom)
      ensures SecondUnderPointer(mouseX, scroll, pixelsPerSecond, zoom)
           == (mouseX + old(scroll)) / PanelOrOne(panelWidth) * TimelineSeconds
      ensures panelWidth == TimelineSeconds * pixelsPerSecond * old(zoom) ==>
        SecondUnderPointer(mouseX, scroll, pixelsPerSecond, zoom)
        == SecondUnderPointer(mouseX, old(scroll), pixelsPerSecond, old(zoom))
      ensures panelWidth == old(panelWidth)
    {
      var oldZoom := zoom;
      zoom := ZoomAfterWheel(zoom, deltaY);
      scroll := ZoomScrollAsWritten(mouseX, scroll, panelWidth, pixelsPerSecond, zoom);
      AsWrittenPointsAtPanelFraction(mouseX, old(scroll), panelWidth, pixelsPerSecond, zoom);
      if panelWidth == TimelineSeconds * pixelsPerSecond * oldZoom {
        AsWrittenAgreesForFullWidthPanel(mouseX, old(scroll), pixelsPerSecond, oldZoom, zoom);
        ZoomScrollKeepsPointer(mouseX, old(scroll), pixelsPerSecond, oldZoom, zoom);
      }
    }

    /** A plain wheel scrolls by `deltaY` and keeps the zoom. */
    method ScrollWheel(deltaY: real)
      requires Valid()
      modifies this
      ensures Valid()
      ensures scroll == old(scroll) + deltaY
      ensures zoom == old(zoom) && panelWidth == old(panelWidth)
    {
      scroll := scroll + deltaY;
    }

    /** The autoscroll effect for playback position `position` (seconds). */
    method Autoscroll(position: real)
      requires Valid()
      modifies this
      ensures Valid()
      ensures scroll == AutoscrollTarget(position * pixelsPerSecond * old(zoom), old(scroll), panelWidth)
      ensures zoom == old(zoom) && panelWidth == old(panelWidth)
      ensures position >= 0.0 && panelWidth >= AutoscrollMargin ==>
        scroll <= position * pixelsPerSecond * zoom <= scroll + panelWidth
    {
      var px := position * pixelsPerSecond * zoom;
      AutoscrollShowsIndicator(px, scroll, panelWidth);
      if px < scroll {
        scroll := Max(0.0, px - AutoscrollMargin);
      } else if px > scroll + panelWidth {
        scroll := px - AutoscrollMargin;
      }
    }
  }
}
