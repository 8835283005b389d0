/** The export wizard (`NewAIProject`): four steps, a trim range in frames
    chosen on a slider, a preview that loops back to the range's start when
    it reaches the range's end, and the processing options. Frame numbers
    become seconds by a JavaScript division by the frame rate, which is 0
    until the video's metadata has loaded. */
module NewAiProject {
  import opened JsNumber

  const FirstStep: int := 1
  const LastStep: int := 4

  /** The processing options. */
  datatype Options = Options(resolution: string, enhanceAudio: bool, addSubtitles: bool)

  const InitialOptions: Options := Options("1080", false, false)

  /** `Math.min(prev + 1, 4)`. */
  function NextStep(step: int): int {
    if step + 1 <= LastStep then step + 1 else LastStep
  }

  /** `Math.max(prev - 1, 1)`. */
  function PrevStep(step: int): int {
    if step - 1 >= FirstStep then step - 1 else FirstStep
  }

  /** Next and Back keep the step in [1, 4], move it by one where they can,
      and undo each other away from the ends. */
  lemma StepsStayInRange(step: int)
    requires FirstStep <= step <= LastStep
    ensures FirstStep <= NextStep(step) <= LastStep && FirstStep <= PrevStep(step) <= LastStep
    ensures step < LastStep ==> NextStep(step) == step + 1 && PrevStep(NextStep(step)) == step
    ensures step > FirstStep ==> PrevStep(step) == step - 1 && NextStep(PrevStep(step)) == step
    ensures NextStep(LastStep) == LastStep && PrevStep(FirstStep) == FirstStep
  {
  }

  /** Whether the Next button of `step` can be pressed: on the first step
      it is disabled until a video file has been chosen. */
  predicate NextEnabled(step: int, videoChosen: bool) {
    step != FirstStep || videoChosen
  }

  /** `{ ...prev, [name]: checked }` for the two checkboxes; another name
      leaves the three modelled options as they were. */
  function SetOption(o: Options, name: string, checked: bool): Options {
    if name == "enhanceAudio" then o.(enhanceAudio := checked)
    else if name == "addSubtitles" then o.(addSubtitles := checked)
    else o
  }

  /** A checkbox change sets its own option, touches no other, and setting
      two different options commutes. */
  lemma OptionChangeIsLocal(o: Options, name: string, other: string, checked: bool, c2: bool)
    ensures SetOption(o, name, checked).resolution == o.resolution
    ensures name == "enhanceAudio" ==>
      SetOption(o, name, checked).enhanceAudio == checked && SetOption(o, name, checked).addSubtitles == o.addSubtitles
    ensures name == "addSubtitles" ==>
      SetOption(o, name, checked).addSubtitles == checked && SetOption(o, name, checked).enhanceAudio == o.enhanceAudio
    ensures name != "enhanceAudio" && name != "addSubtitles" ==> SetOption(o, name, checked) == o
    ensures SetOption(SetOption(o, name, checked), name, checked) == SetOption(o, name, checked)
    ensures name != other ==>
      SetOption(SetOption(o, name, checked), other, c2) == SetOption(SetOption(o, other, c2), name, checked)
  {
  }

  /** Whether the preview at `currentTime` seconds has reached the range's
      end: `currentTime >= end / fps`. */
  predicate ReachedEnd(currentTime: real, end: real, fps: real) {
    AtLeast(currentTime, Divide(end, fps))
  }

  /** For a positive rate the preview's end is the end frame's time; before
      the metadata has loaded (rate 0) a non-negative end is never reached. */
  lemma ReachedEndMeansPastEndFrame(currentTime: real, end: real, fps: real)
    ensures fps > 0.0 ==> (ReachedEnd(currentTime, end, fps) <==> currentTime * fps >= end)
    ensures fps == 0.0 && end >= 0.0 ==> !ReachedEnd(currentTime, end, fps)
  {
    if fps > 0.0 {
      assert Divide(end, fps) == Finite(end / fps);
      if currentTime >= end / fps {
        assert currentTime * fps >= end / fps * fps;
      } else {
        assert currentTime * fps < end / fps * fps;
      }
    }
  }

  /** The wizard's state. `videoChosen` is whether a video file has been
      selected, `requestedTime` the last time assigned to the preview
      element's `currentTime`, and `paused` whether it was last paused
      rather than played. */
  class Wizard {
    var step: int
    var videoChosen: bool
    var fps: real
    var totalFrames: real
    var start: real
    var end: real
    var options: Options
    var isPlaying: bool
    var paused: bool
    var requestedTime: JsValue

    predicate Valid()
      reads this
    {
      FirstStep <= step <= LastStep
    }

    constructor()
      ensures Valid() && step == FirstStep && !videoChosen && fps == 0.0 && totalFrames == 1.0
      ensures start == 0.0 && end == 0.0 && options == InitialOptions
      ensures !isPlaying && paused && requestedTime == Finite(0.0)
    {
      step := FirstStep;
      videoChosen := false;
      fps := 0.0;
      totalFrames := 1.0;
      start := 0.0;
      end := 0.0;
      options := InitialOptions;
      isPlaying := false;
      paused := true;
      requestedTime := Finite(0.0);
    }

    /** The Next button: it advances the step, except on the first step
        while no video is chosen, where the button is disabled. */
    method Next()
      requires Valid()
      modifies this
      ensures Valid()
      ensures NextEnabled(old(step), videoChosen) ==> step == NextStep(old(step))
      ensures !NextEnabled(old(step), videoChosen) ==> step == FirstStep == old(step)
      ensures videoChosen == old(videoChosen) && fps == old(fps) && totalFrames == old(totalFrames)
      ensures start == old(start) && end == old(end)
      ensures options == old(options) && isPlaying == old(isPlaying) && paused == old(paused)
      ensures requestedTime == old(requestedTime)
    {
      if NextEnabled(step, videoChosen) {
        StepsStayInRange(step);
        step := NextStep(step);
      }
    }

    /** The file input's change: a selected file becomes the video
        (`setVideoFile`); no file leaves the wizard as it was. Its metadata
        arrives later, through `LoadMetadata`. */
    method FileSelected(hasFile: bool)
      modifies this
      ensures videoChosen == (old(videoChosen) || hasFile)
      ensures step == old(step) && fps == old(fps) && totalFrames == old(totalFrames)
      ensures start == old(start) && end == old(end) && options == old(options)
      ensures isPlaying == old(isPlaying) && paused == old(paused) && requestedTime == old(requestedTime)
    {
      if hasFile {
        videoChosen := true;
      }
    }

    method Back()
      requires Valid()
      modifies this
      ensures Valid() && step == PrevStep(old(step)) && videoChosen == old(videoChosen)
      ensures fps == old(fps) && totalFrames == old(totalFrames) && start == old(start) && end == old(end)
      ensures options == old(options) && isPlaying == old(isPlaying) && paused == old(paused)
      ensures requestedTime == old(requestedTime)
    {
      StepsStayInRange(step);
      step := PrevStep(step);
    }

    /** The metadata of an uploaded video: its rate and frame count; the trim
        range becomes the whole video. */
    method LoadMetadata(newFps: real, newTotalFrames: real)
      modifies this
      ensures fps == newFps && totalFrames == newTotalFrames && start == 0.0 && end == newTotalFrames
      ensures step == old(step) && options == old(options) && isPlaying == old(isPlaying)
      ensures paused == old(paused) && requestedTime == old(requestedTime)
      ensures videoChosen == old(videoChosen)
    {
      fps := newFps;
      totalFrames := newTotalFrames;
      start := 0.0;
      end := newTotalFrames;
    }

    /** Moving the slider to frames `[newStart, newEnd]` sets the range and
        seeks the preview to the new start. */
    method SliderChange(newStart: real, newEnd: real)
      modifies this
      ensures start == newStart && end == newEnd && requestedTime == Divide(newStart, fps)
      ensures fps != 0.0 ==> requestedTime.Finite? && requestedTime.v * fps == newStart
      ensures step == old(step) && fps == old(fps) && totalFrames == old(totalFrames)
      ensures options == old(options) && isPlaying == old(isPlaying) && paused == old(paused)
      ensures videoChosen == old(videoChosen)
    {
      start := newStart;
      end := newEnd;
      requestedTime := Divide(newStart, fps);
    }

    /** A `timeupdate` of the preview at `currentTime` seconds: at or past the
        range's end the preview pauses and seeks back to the range's start. */
    method TimeUpdate(currentTime: real)
      modifies this
      ensures ReachedEnd(currentTime, end, fps) ==>
        paused && !isPlaying && requestedTime == Divide(start, fps)
      ensures !ReachedEnd(currentTime, end, fps) ==>
        paused == old(paused) && isPlaying == old(isPlaying) && requestedTime == old(requestedTime)
      ensures step == old(step) && fps == old(fps) && totalFrames == old(totalFrames)
      ensures start == old(start) && end == old(end) && options == old(options)
      ensures videoChosen == old(videoChosen)
    {
      if AtLeast(currentTime, Divide(end, fps)) {
        paused := true;
        isPlaying := false;
        requestedTime := Divide(start, fps);
      }
    }

    /** The play/pause button flips playback. */
    method Toggle()
      modifies this
      ensures isPlaying == !old(isPlaying) && paused == old(isPlaying)
      ensures step == old(step) && fps == old(fps) && totalFrames == old(totalFrames)
      ensures start == old(start) && end == old(end) && options == old(options)
      ensures requestedTime == old(requestedTime)
      ensures videoChosen == old(videoChosen)
    {
      if isPlaying {
        isPlaying := false;
        paused := true;
      } else {
        isPlaying := true;
        paused := false;
      }
    }

    /** The stop button pauses, seeks to the range's start and stops playback. */
    method Stop()
      modifies this
      ensures paused && !isPlaying && requestedTime == Divide(start, fps)
      ensures step == old(step) && fps == old(fps) && totalFrames == old(totalFrames)
      ensures start == old(start) && end == old(end) && options == old(options)
      ensures videoChosen == old(videoChosen)
    {
      paused := true;
      requestedTime := Divide(start, fps);
      isPlaying := false;
    }

    /** A checkbox named `name` changed to `checked`. */
    method OptionChange(name: string, checked: bool)
      modifies this
      ensures options == SetOption(old(options), name, checked)
      ensures step == old(step) && fps == old(fps) && totalFrames == old(totalFrames)
      ensures start == old(start) && end == old(end) && isPlaying == old(isPlaying)
      ensures paused == old(paused) && requestedTime == old(requestedTime)
      ensures videoChosen == old(videoChosen)
    {
      options := SetOption(options, name, checked);
    }

    /** A resolution picked from the menu replaces only the resolution. */
    method ResolutionChange(resolution: string)
      modifies this
      ensures options == old(options).(resolution := resolution)
      ensures step == old(step) && fps == old(fps) && totalFrames == old(totalFrames)
      ensures start == old(start) && end == old(end) && isPlaying == old(isPlaying)
      ensures paused == old(paused) && requestedTime == old(requestedTime)
      ensures videoChosen == old(videoChosen)
    {
      options := options.(resolution := resolution);
    }

    /** The arguments `handleProcessVideo` sends: the range in seconds and
        the options. For a non-zero rate the seconds are the frames over the rate. */
    method ProcessArguments() returns (startSeconds: JsValue, endSeconds: JsValue, chosen: Options)
      ensures startSeconds == Divide(start, fps) && endSeconds == Divide(end, fps) && chosen == options
      ensures fps != 0.0 ==> startSeconds.Finite? && startSeconds.v * fps == start
      ensures fps != 0.0 ==> endSeconds.Finite? && endSeconds.v * fps == end
      ensures fps == 0.0 && start == 0.0 ==> startSeconds == NaN
    {
      startSeconds := Divide(start, fps);
      endSeconds := Divide(end, fps);
      chosen := options;
    }
  }
}
