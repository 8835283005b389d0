# ShortsIntelligence editor core in Dafny

ShortsIntelligence is a browser video editor with a Python processing back
end. This project models the parts of it that hold logic:

- the editor's **timeline panel**: the `HH:MM:SS:FF` clock display, the
  tick marks of the 60-second scale, deleting the selected clip with the
  Delete key, and the playback cursor driven by animation frames;
- the **zoomable viewport** around the timeline: alt+wheel zoom around the
  pointer, plain wheel scrolling, and autoscroll to the playback indicator;
- **track geometry** (track and clip widths) and **placing dropped files**
  on the video and audio tracks;
- the **project file list**: adding a batch (media only, no duplicate
  names, only successful uploads), removing by name, and drag-and-drop;
- the **export wizard**: its four steps, the trim range in frames, the
  preview loop, the processing options and the arguments sent for
  processing, together with its `00:MM:SS:FF` time utility;
- the back end's **GPU detection**: parsing WMI, `lspci -nn` and
  `system_profiler` output, the PCI vendor table, the encoder table, the
  vendor memory tools, and the choice of Whisper speech model by memory.

Modules follow the program's files: `TimelinePanel`, `ZoomableContainer`,
`TimelineTrack`, `TimelineTrackContainer`, `FileManagement` and
`NewAiProject` (front-end components and hooks), `TimeUtils` (the time
utility), `GpuInfo` (the back end). Shared support modules model the
language semantics the code relies on: `JsNumber` (JavaScript `%`,
`Math.floor`, `Math.round`, `String(n)`, `padStart`, division that can give
an infinity or NaN), `PyString` (Python `strip`, `upper`, `split()`,
slicing and `int()`), `Strings` (substring search, `split`, `join`,
`replace`, `startsWith`), `Timecode` (colon-separated padded fields and
reading them back), `Media` (a browser `File` and its MIME type), and
`Common` (`Option`, `Result`, `Filter`).

Components whose state the source updates in place are classes:
`TimelinePanel.Panel`, `ZoomableContainer.Viewport`,
`TimelineTrackContainer.Timeline`, `FileManagement.FileManager` and
`NewAiProject.Wizard`. Each event handler or effect is a method that says
exactly what the new state is. Pure computations are functions with lemmas.
Loops in the source are loops here: the scale generator, the add-files
loop, and the GPU parsers and update loop. Each is proved against a
specification function.

Inputs from the outside world are parameters:

- the clock (`now`);
- the pointer and wheel (`mouseX`, `deltaY`);
- the upload service (a function from file to returned URL);
- media durations;
- whether a video's audio could be routed;
- the platform name;
- tool outputs, where `None` is a missing or failing tool.

Numbers are exact reals, not IEEE doubles.

## Model

Source paths are relative to the repository root.

| member | source | states |
|---|---|---|
| TimelinePanel.FormatTimeZero | frontend/src/component/EditorComponents/TimelinePanel.test.tsx:72-79 | the clock shows `00:00:00:00` at time 0 and 30 frames per second |
| TimelinePanel.Fields | frontend/src/component/EditorComponents/TimelinePanel.tsx:276-280 | hours, minutes, seconds and frames of `formatTime` as floors of JavaScript divisions and remainders; their bounds are `FieldsBounds` |
| TimelinePanel.FormatTime | frontend/src/component/EditorComponents/TimelinePanel.tsx:276-289 | the four fields padded to two digits and joined with `:`; that the text reads back as the fields is `FormatTimeParses` |
| TimelinePanel.FieldsBounds | frontend/src/component/EditorComponents/TimelinePanel.tsx:276-280 | for t >= 0 and an integral rate fps > 0: minutes and seconds lie in [0, 59], frames in [0, fps-1], and hours*3600 + minutes*60 + seconds is the whole seconds of t |
| TimelinePanel.FormatTimeParses | frontend/src/component/EditorComponents/TimelinePanel.tsx:276-289 | splitting the display on `:` and reading each field gives back exactly the four computed fields (padding never truncates) |
| TimelinePanel.IntervalsFitTimeline | frontend/src/component/EditorComponents/TimelinePanel.tsx:248-250 | the major interval is 1, 2, 5 or 10 and divides 60; the density is 5 or 10; zooming in never makes either coarser |
| TimelinePanel.Scale | frontend/src/component/EditorComponents/TimelinePanel.tsx:246-272 | the specification of the scale: major marks every interval from 0 to 60, each followed by its minor marks; its properties are `ScaleProperties` and `ScaleHasEveryMultiple` |
| TimelinePanel.GenerateTimelineScale | frontend/src/component/EditorComponents/TimelinePanel.tsx:246-272 | the generated marks are the scale specification `Scale(zoom)` |
| TimelinePanel.ScaleLoop | frontend/src/component/EditorComponents/TimelinePanel.tsx:252-269 | the two nested loops build exactly `ScaleFrom(0, …)`: each major mark followed by its in-range minor marks |
| TimelinePanel.ScaleProperties | frontend/src/component/EditorComponents/TimelinePanel.tsx:252-268 | the marks are strictly increasing in time; every major mark is at a multiple of the interval in [0, 60] and is labelled with its clock time (non-empty); every minor mark has empty text and lies before 60 |
| TimelinePanel.ScaleHasEveryMultiple | frontend/src/component/EditorComponents/TimelinePanel.tsx:252-257 | every multiple of the interval from 0 to 60 has its labelled major mark in the scale |
| TimelinePanel.LabelReadsBack | frontend/src/component/EditorComponents/TimelinePanel.tsx:255 | a label reads back as hours mod 24, minutes, seconds of its second and a `00` frame field |
| TimelinePanel.DeleteSelected | frontend/src/component/EditorComponents/TimelinePanel.tsx:48-50 | the list without the selected id's items, never longer than before; exactly which items stay is `DeleteRemovesExactlySelected` |
| TimelinePanel.DeleteRemovesExactlySelected | frontend/src/component/EditorComponents/TimelinePanel.tsx:48-50 | an item survives deletion iff its id differs from the selection; deletion distributes over concatenation (order kept); a list without the id is unchanged |
| TimelinePanel.DeleteIdempotent | frontend/src/component/EditorComponents/TimelinePanel.tsx:48-50 | deleting the same id twice equals deleting it once |
| TimelinePanel.Panel.KeyDown | frontend/src/component/EditorComponents/TimelinePanel.tsx:44-59 | Delete with a selection sets the list to the list the handler captured at the last selection change, minus the selected id's items (an item survives iff it was captured and has another id) and clears the selection; otherwise nothing changes |
| TimelinePanel.StaleDeleteDropsNewItems | frontend/src/component/EditorComponents/TimelinePanel.tsx:44-59 | an item added after the capture, whatever its id, is gone after Delete, though deleting from the current list would keep it |
| TimelinePanel.Panel.ItemsChanged | frontend/src/component/EditorComponents/TimelinePanel.tsx:25-26 | a new item list from the parent replaces the list and leaves the selection and the captured list alone |
| TimelinePanel.Panel.Select | frontend/src/component/EditorComponents/TimelinePanel.tsx:208-210 | clicking a clip selects its id; a new selection re-registers the key handler, which then captures the current list; nothing else changes |
| TimelinePanel.Advance | frontend/src/component/EditorComponents/TimelinePanel.tsx:71-80 | the next local position: the step is taken unless it passes 60; its properties are `AdvanceStaysOnTimeline` |
| TimelinePanel.AdvanceStaysOnTimeline | frontend/src/component/EditorComponents/TimelinePanel.tsx:71-80 | a frame never moves a position at most 60 past 60; from below 60 it reaches 60 iff it lands exactly on 60; it either advances by the whole step or stays |
| TimelinePanel.Panel.AnimationFrame | frontend/src/component/EditorComponents/TimelinePanel.tsx:61-81 | while playing, the frame clock moves to `now` and the local position advances by the elapsed seconds, except that an overshooting step is not taken and its target goes to the shared position; paused, nothing changes |
| TimelinePanel.Panel.PlayingChanged | frontend/src/component/EditorComponents/TimelinePanel.tsx:86-92 | the shared position takes the local one; starting playback restarts the frame clock |
| TimelinePanel.Panel.PositionsChanged | frontend/src/component/EditorComponents/TimelinePanel.tsx:136-144 | while paused the local position follows the shared one; a rendered local position of 60 or more stops playback, and only that does |
| TimelinePanel.DragPosition | frontend/src/component/EditorComponents/TimelinePanel.tsx:152-155 | the pointer's second clamped to [0, 60]; its properties are `DragClampsToTimeline` |
| TimelinePanel.DragClampsToTimeline | frontend/src/component/EditorComponents/TimelinePanel.tsx:152-155 | the dragged position lies in [0, 60], equals the pointer's second when that is on the timeline, and is monotone in the pointer |
| TimelinePanel.Panel.Drag | frontend/src/component/EditorComponents/TimelinePanel.tsx:149-158 | both positions become the clamped second under the pointer |
| TimelinePanel.OvershootKeepsPlaying | frontend/src/component/EditorComponents/TimelinePanel.tsx:71-80 | from below 60, an overshooting frame leaves the local position below 60, so the stop at lines 141-143 does not fire |
| ZoomableContainer.ClampZoom | frontend/src/component/TimelineComponents/ZoomableContainer.tsx:38-39 | the zoom lies in [0.5, 10] and is unchanged when already inside |
| ZoomableContainer.ZoomAfterWheel | frontend/src/component/TimelineComponents/ZoomableContainer.tsx:38-39 | the rendered zoom moved by -0.002 per wheel unit and clamped; bounds are `ClampZoom`, monotonicity `WheelDownZoomsOut` |
| ZoomableContainer.WheelDownZoomsOut | frontend/src/component/TimelineComponents/ZoomableContainer.tsx:38-39 | the new zoom is anti-monotone in the wheel delta |
| ZoomableContainer.ZoomScrollAsWritten | frontend/src/component/TimelineComponents/ZoomableContainer.tsx:32-44 | the written scroll: the pointer's content offset as a fraction of the panel width, times the new timeline width, minus the pointer; its meaning is `AsWrittenPointsAtPanelFraction` |
| ZoomableContainer.AsWrittenPointsAtPanelFraction | frontend/src/component/TimelineComponents/ZoomableContainer.tsx:32-44 | after the written scroll, the second under the pointer is the panel fraction of the pointer's content offset times the 60-second timeline, whatever the new zoom |
| ZoomableContainer.ZoomScrollKeepsPointer | frontend/src/component/TimelineComponents/ZoomableContainer.tsx:32-46 | the corrected scroll keeps the same second under the pointer across a zoom change |
| ZoomableContainer.AsWrittenAgreesForFullWidthPanel | frontend/src/component/TimelineComponents/ZoomableContainer.tsx:35-44 | the written formula coincides with the corrected one when the panel is as wide as the whole timeline |
| ZoomableContainer.AsWrittenAgreesIff | frontend/src/component/TimelineComponents/ZoomableContainer.tsx:35-44 | for a positive panel width, the two formulas agree exactly when the pointer sits at content offset 0 or the panel is as wide as the whole timeline |
| ZoomableContainer.AsWrittenMovesPointer | frontend/src/component/TimelineComponents/ZoomableContainer.tsx:42-46 | a concrete event with unchanged zoom that moves the pointer from second 5 to second 30 under the written formula |
| ZoomableContainer.AutoscrollTarget | frontend/src/component/TimelineComponents/ZoomableContainer.tsx:64-83 | the scroll the autoscroll effect leaves for the indicator pixel; its properties are `AutoscrollShowsIndicator` |
| ZoomableContainer.AutoscrollShowsIndicator | frontend/src/component/TimelineComponents/ZoomableContainer.tsx:64-83 | a visible indicator leaves the scroll alone; scrolling left never goes negative; scrolling right puts the edge 10 px before the indicator; for a panel of at least 10 px the indicator ends up visible |
| ZoomableContainer.Viewport.ZoomWheel | frontend/src/component/TimelineComponents/ZoomableContainer.tsx:31-48 | the zoom moves by -0.002 per wheel unit clamped to [0.5, 10]; the scroll is the written formula, so the pointer lands on the panel fraction of its old content offset of the 60-second timeline; the pointed-at second is kept when the panel is as wide as the old timeline |
| ZoomableContainer.Viewport.ScrollWheel | frontend/src/component/TimelineComponents/ZoomableContainer.tsx:49-51 | a plain wheel scrolls by the delta and keeps the zoom |
| ZoomableContainer.Viewport.Autoscroll | frontend/src/component/TimelineComponents/ZoomableContainer.tsx:64-83 | the scroll becomes the autoscroll target of the indicator pixel, and the indicator is then visible |
| TimelineTrack.TotalDuration | frontend/src/component/TimelineComponents/TimelineTrack.tsx:23-26 | the clips' durations added up; its properties are `TotalOfAppend` and `TotalCoversEachClip` |
| TimelineTrack.TotalOfAppend | frontend/src/component/TimelineComponents/TimelineTrack.tsx:23-26 | the total of no clips is 0 and appending a clip adds its duration |
| TimelineTrack.TotalCoversEachClip | frontend/src/component/TimelineComponents/TimelineTrack.tsx:23-26 | with non-negative durations the total is non-negative and at least each clip's duration |
| TimelineTrack.ItemWidth | frontend/src/component/TimelineComponents/TimelineTrack.tsx:75 | a clip's drawn width: its duration in pixels at the zoom; their sum is `WidthsSumIsTotal` |
| TimelineTrack.WidthsSumIsTotal | frontend/src/component/TimelineComponents/TimelineTrack.tsx:75 | the clips' drawn widths add up to the total duration times pixels per second times zoom |
| TimelineTrack.ContainerWidth | frontend/src/component/TimelineComponents/TimelineTrack.tsx:28-33 | the track width: total duration, at least 60 s, in pixels at the zoom; its bounds are `ContainerAtLeastMinimum` and `ClipsFitInTrack` |
| TimelineTrack.ContainerAtLeastMinimum | frontend/src/component/TimelineComponents/TimelineTrack.tsx:28-33 | the track is at least 60 seconds wide, and exactly so while the clips last at most 60 seconds |
| TimelineTrack.ClipsFitInTrack | frontend/src/component/TimelineComponents/TimelineTrack.tsx:32-33 | the clips' widths together never exceed the track's width |
| TimelineTrack.TrackShift | frontend/src/component/TimelineComponents/TimelineTrack.tsx:62 | the track's left shift: the timeline offset in pixels at the zoom; its properties are `ShiftIsOffsetInPixels` |
| TimelineTrack.ShiftIsOffsetInPixels | frontend/src/component/TimelineComponents/TimelineTrack.tsx:62 | the left shift is 0 at offset 0 and additive in the offset |
| TimelineTrackContainer.LastIndexOnTrack | frontend/src/component/TimelineComponents/TimelineTrackContainer.tsx:24-30 | the index found holds an item of the track and no later item is on it; none is found iff no item is on the track |
| TimelineTrackContainer.LastOnTrack | frontend/src/component/TimelineComponents/TimelineTrackContainer.tsx:24-30 | a found predecessor is an item of the list on that track, and none is found iff no item is on the track |
| TimelineTrackContainer.LastOnTrackIsLastOfTrack | frontend/src/component/TimelineComponents/TimelineTrackContainer.tsx:24-30 | the predecessor is the last element of the filtered track list, or none when it is empty |
| TimelineTrackContainer.AppendedIsLast | frontend/src/component/TimelineComponents/TimelineTrackContainer.tsx:55-58 | an appended item becomes the last of its track and leaves the other track's last item unchanged |
| TimelineTrackContainer.MakeItem | frontend/src/component/TimelineComponents/TimelineTrackContainer.tsx:36-51 | the item built for a file: name (with ` (audio)` on the audio track), duration, width in pixels, start and end; its placement is `ConsecutiveItemsAbut` |
| TimelineTrackContainer.ConsecutiveItemsAbut | frontend/src/component/TimelineComponents/TimelineTrackContainer.tsx:36-51 | a new item ends at start + duration * pixels per second, and the next item of that track starts exactly there |
| TimelineTrackContainer.NewItemOverlapsNothing | frontend/src/component/TimelineComponents/TimelineTrackContainer.tsx:37-39 | when the last-listed item is the rightmost, a new item of non-negative width starts at or after every item of its track |
| TimelineTrackContainer.Timeline.AddItem | frontend/src/component/TimelineComponents/TimelineTrackContainer.tsx:32-59 | appends the built item (audio items named `<file> (audio)`, start after the predecessor or 0) |
| TimelineTrackContainer.Timeline.HandleFile | frontend/src/component/TimelineComponents/TimelineTrackContainer.tsx:22-91 | a video adds a video item and, when its audio is routed, an audio item at the same start; an audio file adds an audio item; other files add nothing; the start comes from the items before the call |
| Media.VideoIsNotAudio | frontend/src/hooks/useFileManagement.tsx:30-33 | no MIME type is both a video and an audio type |
| FileManagement.FileManager.AddFiles | frontend/src/hooks/useFileManagement.tsx:24-56 | the list becomes the old list followed by the batch's accepted files in batch order; the input key is bumped and uploading ends |
| FileManagement.Accepted | frontend/src/hooks/useFileManagement.tsx:29-47 | the batch's files `addFiles` keeps, in order, never more than the batch; which ones is `AcceptedMembership` |
| FileManagement.AcceptedMembership | frontend/src/hooks/useFileManagement.tsx:30-47 | a batch file is added iff it is video or audio, its name is not in the list before the call, and its upload returns a URL |
| FileManagement.AcceptedInOrder | frontend/src/hooks/useFileManagement.tsx:29-51 | acceptance distributes over concatenation of batches |
| FileManagement.SameNameInBatchBothAdded | frontend/src/hooks/useFileManagement.tsx:38-39 | two new media files of the same unlisted name that both upload are both added |
| FileManagement.FileManager.RemoveFile | frontend/src/hooks/useFileManagement.tsx:58-66 | the list loses every file of that name and the input key is bumped |
| FileManagement.WithoutName | frontend/src/hooks/useFileManagement.tsx:61 | the list without the files of that name, never longer; exactly which stay is `RemoveKeepsOthers` |
| FileManagement.RemoveKeepsOthers | frontend/src/hooks/useFileManagement.tsx:61 | a file stays iff its name differs; the name is then absent; order is kept; an absent name leaves the list unchanged |
| FileManagement.FileManager.HandleDrop | frontend/src/hooks/useFileManagement.tsx:68-91 | a non-empty drop adds the files `addFiles` accepts from it; an empty drop changes nothing |
| FileManagement.DropFilterChangesNothing | frontend/src/hooks/useFileManagement.tsx:73-85 | pre-filtering the drop to media files admits exactly what the whole drop would |
| FileManagement.MediaOnly | frontend/src/hooks/useFileManagement.tsx:74-78 | the drop's video and audio files, in order, never more than the drop; exactly which is `MediaOnlyMembership` |
| FileManagement.MediaOnlyMembership | frontend/src/hooks/useFileManagement.tsx:74-78 | the drop filter keeps exactly the video and audio files |
| NewAiProject.NextStep | frontend/src/component/NewAIProject.tsx:43 | the step after `step`, capped at 4; its properties are `StepsStayInRange` |
| NewAiProject.PrevStep | frontend/src/component/NewAIProject.tsx:44 | the step before `step`, floored at 1; its properties are `StepsStayInRange` |
| NewAiProject.StepsStayInRange | frontend/src/component/NewAIProject.tsx:43-44 | Next and Back keep the step in [1, 4], move it by one where they can, undo each other away from the ends, and stop at the ends |
| NewAiProject.Wizard.constructor | frontend/src/component/NewAIProject.tsx:22-37 | step 1, rate 0, 1 frame, range [0, 0], options 1080 / no audio enhancement / no subtitles, not playing |
| NewAiProject.Wizard.Next | frontend/src/component/NewAIProject.tsx:43 | on the first step without a chosen video the Next button is disabled (line 203) and nothing changes; otherwise the step advances, capped at 4; nothing else changes |
| NewAiProject.Wizard.FileSelected | frontend/src/component/NewAIProject.tsx:46-49 | choosing a file marks the video as chosen (an empty choice keeps the old state); nothing else changes |
| NewAiProject.Wizard.Back | frontend/src/component/NewAIProject.tsx:44 | the step goes back, floored at 1; nothing else changes |
| NewAiProject.Wizard.LoadMetadata | frontend/src/component/NewAIProject.tsx:55-58 | rate and frame count are taken from the metadata and the range becomes [0, total frames] |
| NewAiProject.Wizard.SliderChange | frontend/src/component/NewAIProject.tsx:75-82 | the range is set and the preview seeks to start / fps (an infinity or NaN at rate 0) |
| NewAiProject.ReachedEndMeansPastEndFrame | frontend/src/component/NewAIProject.tsx:88 | for a positive rate the end test holds iff currentTime * fps >= end; at rate 0 a non-negative end is never reached |
| NewAiProject.Wizard.TimeUpdate | frontend/src/component/NewAIProject.tsx:87-92 | at or past the range's end the preview pauses, stops and seeks back to the start; before it nothing changes |
| NewAiProject.Wizard.Toggle | frontend/src/component/NewAIProject.tsx:116-124 | playback flips and the element's paused state follows |
| NewAiProject.Wizard.Stop | frontend/src/component/NewAIProject.tsx:126-132 | pauses, seeks to the range's start and stops |
| NewAiProject.SetOption | frontend/src/component/NewAIProject.tsx:141-144 | the options with the named checkbox set; its properties are `OptionChangeIsLocal` |
| NewAiProject.OptionChangeIsLocal | frontend/src/component/NewAIProject.tsx:141-144 | a checkbox sets only its own option, is idempotent, and changes to different options commute |
| NewAiProject.Wizard.OptionChange | frontend/src/component/NewAIProject.tsx:141-144 | the options become the checkbox update of the old options |
| NewAiProject.Wizard.ResolutionChange | frontend/src/component/NewAIProject.tsx:146-149 | only the resolution is replaced |
| NewAiProject.Wizard.ProcessArguments | frontend/src/component/NewAIProject.tsx:155-162 | the range is sent in seconds (frames / fps, exact when fps is non-zero, NaN for 0/0) with the current options |
| JsNumber.Pad2Zero | frontend/src/component/utils/timeUtils.tsx:8 | the constant hour field is `00` |
| TimeUtils.Fields | frontend/src/component/utils/timeUtils.tsx:3-5 | minutes, seconds and frames as floors of JavaScript divisions and remainders; their bounds are `FieldsNonNegative`, `MinutesAndSeconds` and `FramesRange` |
| TimeUtils.FormatTime | frontend/src/component/utils/timeUtils.tsx:1-15 | `00` and the three fields, padded and joined with `:`; reading back is `FormatTimeParses` |
| TimeUtils.SplitLayout | frontend/src/component/utils/timeUtils.tsx:8-10 | the text splits on `:` into `00` and the three padded fields |
| TimeUtils.FormatTimeParses | frontend/src/component/utils/timeUtils.tsx:1-15 | for t, fps >= 0 the text reads back as hour 0 and the computed minutes, seconds and frames |
| TimeUtils.FieldsNonNegative | frontend/src/component/utils/timeUtils.tsx:3-5 | for t, fps >= 0 all three fields are non-negative |
| TimeUtils.MinutesAndSeconds | frontend/src/component/utils/timeUtils.tsx:3-4 | seconds lie in [0, 59] and minutes * 60 + seconds is the whole seconds of t |
| TimeUtils.OneHourShowsSixtyMinutes | frontend/src/component/utils/timeUtils.tsx:3 | minutes are not wrapped into hours: 3600 s shows minute field `60` |
| TimeUtils.FramesRange | frontend/src/component/utils/timeUtils.tsx:5 | for an integral rate the rounded frame field lies in [0, fps] |
| TimeUtils.FramesCanReachRate | frontend/src/component/utils/timeUtils.tsx:5 | at 0.99 s and 30 fps the frame field is 30, one past the last frame |
| TimeUtils.WholeSecondsHaveNoFrames | frontend/src/component/utils/timeUtils.tsx:5 | a whole number of seconds has frame field 0 |
| JsNumber.Rem | frontend/src/component/utils/timeUtils.tsx:4-5 | JavaScript `%`: in [0, b) for a non-negative dividend, in (-b, 0] for a non-positive one |
| JsNumber.Round | frontend/src/component/utils/timeUtils.tsx:5 | `Math.round` gives the integer within half of x, and an integer unchanged |
| JsNumber.Pad2 | frontend/src/component/utils/timeUtils.tsx:8-10 | `padStart(2, "0")` is at least two characters, exactly two below 100, and never cuts a number of two or more digits |
| JsNumber.Pad2Value | frontend/src/component/utils/timeUtils.tsx:8-10 | a padded non-negative number is all digits and keeps its value |
| JsNumber.Divide | frontend/src/component/NewAIProject.tsx:80 | division is finite iff the divisor is non-zero, then exact; NaN iff 0 / 0 |
| Timecode.ParseRender | frontend/src/component/EditorComponents/TimelinePanel.tsx:282-288 | joining padded non-negative fields with `:` and reading them back gives the fields |
| GpuInfo.ExtractIds | backend/backend/gpu_info.py:33-41 | ids are present iff the PNP id contains both `VEN_` and `DEV_`, else both None |
| GpuInfo.IdAfterIsDelimited | backend/backend/gpu_info.py:37-38 | an id is the text right after the marker's first occurrence, stopped by `&`, the marker's next occurrence or the end, and contains neither |
| GpuInfo.TablesAgree | backend/backend/gpu_info.py:9-22 | every vendor the id table yields has an encoder; an unknown id gives `Unknown` and `libx264`; each known id gets its vendor's encoder |
| GpuInfo.FirstFit | backend/backend/gpu_info.py:270-272 | the chosen index is the first whose threshold the memory reaches, or none |
| GpuInfo.FirstFitIsLargest | backend/backend/gpu_info.py:268-273 | in a descending table the chosen threshold is the largest the memory reaches |
| GpuInfo.FirstFitMonotone | backend/backend/gpu_info.py:270-272 | more memory never selects a later entry |
| GpuInfo.BestWhisperModel | backend/backend/gpu_info.py:268-273 | the model of the first table entry the memory reaches, or `tiny`; its values are `WhisperModelByMemory` and `WhisperModelMonotone` |
| GpuInfo.WhisperModelByMemory | backend/backend/gpu_info.py:24-31 | the model for each memory range: large from 10000 MB, turbo, medium, small, base, tiny below 1000 (also negative) |
| GpuInfo.WhisperModelMonotone | backend/backend/gpu_info.py:24-31 | the table is sorted descending and more memory never selects a smaller model |
| GpuInfo.VramWithTool | backend/backend/gpu_info.py:43-61 | the vendor's memory tool's reading, or 0 for another vendor; see `NoToolGivesZero` |
| GpuInfo.NvidiaVram | backend/backend/gpu_info.py:63-82 | the first output line as an integer; a missing tool or an unreadable line gives 0 |
| GpuInfo.AmdVram | backend/backend/gpu_info.py:84-103 | the number after the last `:` of the first `Total` line, ` MiB` removed; otherwise 0; see `SkipNoTotal` |
| GpuInfo.AppleVram | backend/backend/gpu_info.py:123-137 | half the machine's memory in whole MB; see `AppleGetsHalfMemory` |
| GpuInfo.NoToolGivesZero | backend/backend/gpu_info.py:56-58 | a vendor without a memory tool gets 0 |
| GpuInfo.SkipNoTotal | backend/backend/gpu_info.py:92-97 | the AMD reading skips every line before the first `Total` line |
| GpuInfo.AppleGetsHalfMemory | backend/backend/gpu_info.py:132 | Apple's memory is half the machine's, rounded down to whole MB |
| GpuInfo.UpdatedGpu | backend/backend/gpu_info.py:151-162 | vendor from the upper-cased vendor id, its encoder, memory kept when non-zero else from the vendor's tool, and the Whisper model for that memory; other fields unchanged |
| GpuInfo.UpdateGpus | backend/backend/gpu_info.py:151-162 | every adapter is updated, count and order kept, and each ends with memory and its Whisper model |
| GpuInfo.UpdatedGpuAsWritten | backend/backend/gpu_info.py:151-162 | the written update: an AttributeError for a vendor id of `None`, else the corrected update; see `MissingVendorIdBreaksUpdate` |
| GpuInfo.MissingVendorIdBreaksUpdate | backend/backend/gpu_info.py:152 | a PNP id without `VEN_` gives vendor id None, on which the written update raises; read as empty it gives `Unknown` and `libx264` |
| GpuInfo.WindowsRecord | backend/backend/gpu_info.py:174-182 | the record of one controller: its name and the extracted ids, other fields empty; ids are `ExtractIds` |
| GpuInfo.WindowsGpus | backend/backend/gpu_info.py:167-186 | one record per controller, in order, with the extracted ids; no WMI gives no adapters |
| GpuInfo.LinuxGpus | backend/backend/gpu_info.py:188-218 | the loop builds `LinuxRecords` of the output's lines; no `lspci` gives no adapters |
| GpuInfo.LinuxRecord | backend/backend/gpu_info.py:194-211 | the record of a display line: the words but the first two and the last, and the bracketed ids; see `BracketIdsAreTheLastBracket` |
| GpuInfo.LinuxRecordsPerLine | backend/backend/gpu_info.py:193-211 | a display line gives exactly one record and any other line none |
| GpuInfo.BracketIds | backend/backend/gpu_info.py:202-209 | the two sides of the last bracket's content when it holds one `:`, else `Unknown` twice; see `BracketIdsAreTheLastBracket` |
| GpuInfo.BracketIdsAreTheLastBracket | backend/backend/gpu_info.py:202-209 | ids taken from brackets are the two `:`-free sides of the last bracket's content, which holds no bracket |
| GpuInfo.MacVendorId | backend/backend/gpu_info.py:236-239 | the id is the upper-cased text with `)` stripped from its ends, less a leading `0X` when present; it holds no lower-case letter and does not end with `)` |
| GpuInfo.MacVendorIdExample | backend/backend/gpu_info.py:236-239 | `0x10de)` gives `10DE` |
| GpuInfo.VendorLineRecordsId | backend/backend/gpu_info.py:232-239 | a vendor line with a parenthesis records the vendor name before ` (` and the cleaned id |
| GpuInfo.UnreadableMemoryRaises | backend/backend/gpu_info.py:243-246 | a memory line whose value is not an integer raises ValueError |
| GpuInfo.ParseLines | backend/backend/gpu_info.py:228-259 | the loop's result is `RecordsWith` from the empty accumulator, including the first error |
| GpuInfo.MacStep | backend/backend/gpu_info.py:228-247 | one line taken into the accumulator: name, vendor with its id, cores or memory, an unreadable memory raising ValueError; see `VendorLineRecordsId` and `UnreadableMemoryRaises` |
| GpuInfo.MacRecords | backend/backend/gpu_info.py:228-259 | the records of the lines from an accumulator on, a record for each completed accumulator, or the first error; shape is `RecordsShape` |
| GpuInfo.MacGpus | backend/backend/gpu_info.py:220-266 | the macOS records of the output's lines; no `system_profiler` gives no adapters |
| GpuInfo.RecordsShape | backend/backend/gpu_info.py:248-258 | every macOS record has device id `Unknown`, no memory, the VideoToolbox encoder and a vendor |
| GpuInfo.UpdatedAll | backend/backend/gpu_info.py:151-162 | every adapter passed through the update, in order |
| GpuInfo.UpdatedAllShape | backend/backend/gpu_info.py:151-162 | the update keeps the count, and every updated adapter has memory, its Whisper model, a vendor and that vendor's encoder |
| GpuInfo.GetGpuInfo | backend/backend/gpu_info.py:139-165 | an unknown platform gives no adapters; Windows gives the updated records of the WMI controllers, Linux those of the `lspci` display lines, macOS those of the `system_profiler` parser or its error, and no macOS tool none; every adapter returned has memory, its Whisper model, a vendor and that vendor's encoder |
| PyString.ParseIntOfString | backend/backend/gpu_info.py:244-246 | `int(str(n)) == n` |
| PyString.ParseIntRejectsLetter | backend/backend/gpu_info.py:244-246 | text containing a letter is not an integer |
| PyString.StripBy | backend/backend/gpu_info.py:229 | the stripped text begins and ends with a kept character |
| PyString.Upper | backend/backend/gpu_info.py:152 | upper-casing maps each character and keeps the length |
| PyString.Words | backend/backend/gpu_info.py:199 | the words are non-empty and hold no whitespace |
| PyString.DropTwoAndLast | backend/backend/gpu_info.py:200 | `parts[2:-1]` has three fewer parts (none below four) and they are the parts from index 2 on |

## Left out

- Rendering, CSS, DOM styling of the selected clip, the toolbar and every
  `console` call: presentation only.
- The DOM's own clamping of `scrollLeft` to the scrollable range: the
  viewport's scroll is an unclamped real.
- The `localZoom` accumulator of `ZoomableContainer` across wheel events
  before React re-renders: each event starts from the rendered zoom.
- The wheel listener's registration and `preventDefault`.
- React's asynchronous state updates, the order of updater functions, and
  requesting and cancelling animation frames: each handler or effect run is
  one method call.
- TimelinePanel.Panel.Drag: requires a positive zoom. The source divides by
  `pixelsPerSecond * zoom`, and the zoom is kept in [0.5, 10].
- IEEE floating point: minor tick times such as `i + j * (2 / 10)` are exact
  reals here, not rounded doubles.
- The `setTimeout` effect of the wizard (NewAIProject.tsx lines 104-114),
  which shows the range's end for one second and then seeks back to its
  start: timers are not modelled.
- The wizard's `switchSound` (mute toggle): it only updates element
  state. Of the file upload handler only the choice of a file is modelled
  (`FileSelected`); its asynchronous metadata request is left out, and its
  result is the input of `LoadMetadata`.
- Browsers reject a non-finite `currentTime`: the model records the
  requested `JsValue` (an infinity or NaN at rate 0) instead.
- The preview element and the file input are assumed to be mounted.
- `uploadFileToBackend` is a function from file to returned URL. Its
  exceptions and its asynchrony are left out, and an empty URL stands for a
  falsy result. Fetching the existing files on mount is network I/O.
- FileManagement.FileManager.AddFiles: the `files` value captured by the
  callback is the manager's current list. Stale closures are not modelled.
- The `TrackItem` interface of `interfaces.ts` differs from the object built
  by `TimelineTrackContainer`. The model follows the built object and, for a
  track row, uses only a name and a duration.
- NewAiProject.SetOption: a checkbox of another name would add a new key to
  the options. The model keeps the three known options unchanged.
- PyString.Upper: upper-cases ASCII letters only. PyString.ParseInt: accepts
  ASCII decimal digits only, not other Unicode digits.
- PyString.Words: the contract says only that every word is non-empty and
  free of whitespace. That the words are the maximal runs, in order, is the
  body's definition and is not restated.
- PyString.StripBy: the contract says only that the result's ends are kept
  characters and that it is no longer than the input. That exactly the
  leading and trailing runs are removed is the body's definition.
- The JSON parsing of `intel_gpu_top -J`: its `DRAM.total` is an input.
  `int(vram)` on a non-integral value is not modelled.
- `platform.system()`, `psutil`, `wmi` and `subprocess` are inputs, where
  `None` is a missing or failing tool. A WMI `PNPDeviceID` of `None` is not
  modelled.
- `save_to_json`: file output.
- GpuInfo.GetGpuInfo: uses the corrected update for Windows adapters without
  a vendor id (see Findings). The written behaviour is
  `UpdatedGpuAsWritten`.
- ZoomableContainer.Viewport.ZoomWheel: follows the code as written, not the
  corrected scroll of the Findings table. The corrected formula is
  `ZoomScroll`, with `ZoomScrollKeepsPointer`.

## Findings

| source | as written | input that shows it | evidently intended | confidence | as-written member | corrected member |
|---|---|---|---|---|---|---|
| frontend/src/component/TimelineComponents/ZoomableContainer.tsx:35-44 | the pointer's content offset is divided by the panel's width but multiplied by the whole timeline's new width | panel 1000 px, 100 px/s, zoom 1, pointer at 500, scroll 0, deltaY 0: scroll jumps to 2500 and the pointer moves from second 5 to second 30 | divide by the timeline's old width, so the second under the pointer stays put | not executed | ZoomableContainer.AsWrittenMovesPointer | ZoomableContainer.ZoomScrollKeepsPointer |
| backend/backend/gpu_info.py:152 | `gpu.get("vendor_id", "").upper()`, but the Windows parser always sets `vendor_id`, to `None` when the PNP id lacks `VEN_` or `DEV_` (lines 179-181) | a controller with PNP id `ROOT\BASICRENDER\0000`: `None.upper()` raises AttributeError | a missing id read as empty, giving vendor `Unknown` and encoder `libx264` | not executed | GpuInfo.MissingVendorIdBreaksUpdate | GpuInfo.UpdatedGpu |
