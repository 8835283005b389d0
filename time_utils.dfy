/** The trim-range timecode of the export wizard (`formatTime` of the time
    utilities): a constant `00` hour field, minutes that are not wrapped at
    60, whole seconds within the minute, and frames rounded to the nearest. */
module TimeUtils {
  import opened Common
  import opened Strings
  import opened JsNumber
  import opened Timecode

  datatype MinuteFields = MinuteFields(minutes: int, seconds: int, frames: int)

  /** The three computed fields, with JavaScript's `%`, `Math.floor` and `Math.round`. */
  function Fields(t: real, fps: real): MinuteFields {
    MinuteFields((t / 60.0).Floor, Rem(t, 60.0).Floor, Round(Rem(t, 1.0) * fps))
  }

  /** `formatTime(timeInSeconds, fps)`: the template `00:MM:SS:FF`, which is
      the timecode of a zero hour and the three computed fields. */
  function FormatTime(t: real, fps: real): string {
    Layout(Fields(t, fps))
  }

  function Layout(f: MinuteFields): string {
    Render([0, f.minutes, f.seconds, f.frames])
  }

  /** Splitting the text on colons gives `00` and the three padded fields. */
  lemma SplitLayout(f: MinuteFields)
    ensures var parts := Split(Layout(f), ":");
      |parts| == 4 && parts[0] == "00" && parts[1] == Pad2(f.minutes) &&
      parts[2] == Pad2(f.seconds) && parts[3] == Pad2(f.frames)
  {
    var fields := [0, f.minutes, f.seconds, f.frames];
    SplitRender(fields);
    Pad2Zero();
    assert fields[0] == 0 && fields[1] == f.minutes && fields[2] == f.seconds && fields[3] == f.frames;
  }

  /** Reading the output back gives hour 0 and the computed fields, for a
      non-negative time and frame rate: every field is padded, none is cut. */
  lemma FormatTimeParses(t: real, fps: real)
    requires t >= 0.0 && fps >= 0.0
    ensures var f := Fields(t, fps);
      Parse(FormatTime(t, fps), 4) == Some([0, f.minutes, f.seconds, f.frames])
  {
    FieldsNonNegative(t, fps);
    var f := Fields(t, fps);
    ParseRender([0, f.minutes, f.seconds, f.frames]);
  }

  lemma FieldsNonNegative(t: real, fps: real)
    requires t >= 0.0 && fps >= 0.0
    ensures var f := Fields(t, fps); f.minutes >= 0 && f.seconds >= 0 && f.frames >= 0
  {
    var x := Rem(t, 1.0);
    assert x >= 0.0;
    assert x * fps >= 0.0;
  }

  /** Minutes count whole minutes and seconds the rest, so together they give
      the whole seconds of `t`; seconds stay within [0, 59]. */
  lemma MinutesAndSeconds(t: real, fps: real)
    requires t >= 0.0
    ensures var f := Fields(t, fps);
      0 <= f.seconds <= 59 && 0 <= f.minutes && f.minutes * 60 + f.seconds == t.Floor
  {
    var m := (t / 60.0).Floor;
    var r := Rem(t, 60.0);
    assert r == t - 60.0 * m as real;
    ShiftFloor(t, -60 * m);
  }

  /** Adding an integer moves the floor by that integer. */
  lemma ShiftFloor(x: real, n: int)
    ensures (x + n as real).Floor == x.Floor + n
  {
  }

  /** Minutes are not wrapped into hours: one hour shows as 60 minutes. */
  lemma OneHourShowsSixtyMinutes(fps: real)
    ensures Fields(3600.0, fps).minutes == 60
    ensures var parts := Split(FormatTime(3600.0, fps), ":"); |parts| == 4 && parts[1] == "60"
  {
    var f := Fields(3600.0, fps);
    assert f.minutes == 60;
    SplitLayout(f);
    SixtyIsSixty();
  }

  lemma SixtyIsSixty()
    ensures Pad2(60) == "60"
  {
    assert NatToString(6) == "6";
    assert NatToString(60) == "60";
  }

  /** Frames are the rounded fraction of a second times the frame rate, so for
      an integral rate they lie in [0, fps] and may reach `fps` itself. */
  lemma FramesRange(t: real, fps: int)
    requires t >= 0.0 && fps >= 0
    ensures 0 <= Fields(t, fps as real).frames <= fps
  {
    var x := Rem(t, 1.0);
    assert 0.0 <= x < 1.0;
    FramesOfFraction(x, fps);
  }

  lemma FramesOfFraction(x: real, fps: int)
    requires 0.0 <= x < 1.0 && fps >= 0
    ensures 0 <= Round(x * fps as real) <= fps
  {
    var f := fps as real;
    FractionTimesRate(x, f);
    RoundInRange(x * f, fps);
  }

  /** A number in [0, n] rounds to an integer in [0, n]. */
  lemma RoundInRange(y: real, n: int)
    requires 0.0 <= y <= n as real
    ensures 0 <= Round(y) <= n
  {
    var r := Round(y);
    assert r as real < n as real + 1.0;
  }

  lemma FractionTimesRate(x: real, fps: real)
    requires 0.0 <= x < 1.0 && fps >= 0.0
    ensures 0.0 <= x * fps <= fps
  {
  }

  /** At 0.99 s and 30 frames per second the frame field is 30, one past the
      last frame of a second. */
  lemma FramesCanReachRate()
    ensures Fields(0.99, 30.0).frames == 30
  {
    assert Trunc(0.99) == 0;
    assert Rem(0.99, 1.0) == 0.99;
  }

  /** A whole number of seconds has frame 0. */
  lemma WholeSecondsHaveNoFrames(n: int, fps: real)
    ensures Fields(n as real, fps).frames == 0
  {
    var x := Rem(n as real, 1.0);
    assert x == n as real - Trunc(n as real) as real;
    assert Trunc(n as real) == n;
  }
}
