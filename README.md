# YouTube downloader: a Dafny model of its two handlers

The program is a small desktop window. You paste a YouTube link and press
"Fetch All Formats". The fetch handler asks the video library for the video's
mp4 streams, highest resolution first. It then fills an option menu with one
label per distinct format, for example `1080p | High Quality (Merged) | 45.0 MB`,
and remembers which stream each label stands for.

Pressing the download button runs the download handler:

- An adaptive stream has no audio track. The handler downloads its video track
  and the audio-only stream into two temporary files. It merges them with
  `ffmpeg` into `<clean title>_<resolution>.mp4` and removes the temporary files.
- A progressive stream is downloaded straight into the output file.

The status label, its colour and the progress bar report each step. An error
shows a red message. The download button is re-enabled at the end in every
case.

The model has six modules:

- `Wrappers`: `Option`.
- `Text`: Python's `s[:n]`, the title filter, the output file name and the status messages.
- `Formats`: the stream records, the label format, the first-occurrence deduplication and the fetch loop (`BuildOptions`).
- `Effects`: the log of what a handler does and the widget state that log produces (`Replay`).
- `Transfer`: the download handler's try/except/finally as a function of the outcome of each step that can raise (`DownloadTrace`), and its properties.
- `Downloader`: the window as a `class Session`. Its fields are the current video, the label-to-stream map and the effect log. It has the constructor, `FetchFormats`, `Choose` and `DownloadLogic`.

The widgets are not stored separately. `Session.Widgets()` replays the effect
log from the window's initial widgets. So every claim about the log is also a
claim about what the user sees.

Three kinds of input are parameters:

- What the library answers: a `Lookup` for the link, holding a `Video` with its streams and its audio-only stream.
- What each download, the merge command and each file removal does: an `Outcomes` value, where each step ends `Ok` or `Raised(message)`.
- The user's choice in the option menu: `Session.Choose` records it, and the download handler reads it back from the widgets.

## Model

| member | source | states |
|---|---|---|
| Text.Prefix | main.py:81 | Python's `s[:n]`: a prefix of `s` of length the smaller of n and the length of s |
| Text.Sanitize | main.py:93 | the filtered title holds none of the nine characters `\ / * ? : " < > \|` and is no longer than the title |
| Text.SanitizeKeepsClean | main.py:93 | a title without those characters comes back unchanged |
| Text.SanitizeIdempotent | main.py:93 | filtering twice is filtering once |
| Text.SanitizeAppend | main.py:93 | the filter works character by character: filtering a concatenation concatenates the filtered parts, keeping order |
| Text.SanitizeCounts | main.py:93 | each legal character survives as often as it occurs; each illegal one vanishes |
| Text.OutputName | main.py:94 | the output name ends in `.mp4`, is at least the clean title plus 5 characters long, and is free of illegal characters whenever the resolution is |
| Text.OutputNameStable | main.py:93-94 | an already filtered title names the same output file |
| Text.ErrorStatus | main.py:81 | the fetch error starts with `Error: `, is at most 52 characters, and shows the error text whole when it has at most 45 characters, its first 45 otherwise |
| Text.DownloadErrorStatus | main.py:126 | the download error starts with `Download Error: `, is at most 61 characters, and shows the error text whole when it has at most 45 characters, its first 45 otherwise |
| Text.SavedStatus | main.py:123 | the saved message starts with `Saved: ` and ends with `...`, is at most 40 characters, and shows a file name of at most 30 characters whole, a longer one cut at 30 |
| Text.StatusesDistinct | main.py:79-126 | a fetch error, a download error, a saved message and the loaded message can never be mistaken for one another: all six pairs differ |
| Formats.CategoryOf | main.py:62-68 | a stream is labelled merged exactly when it is adaptive, direct otherwise |
| Formats.TotalSize | main.py:62-67 | the total is at least the stream's own size, and exceeds it exactly when the stream is adaptive and the audio-only stream is not empty |
| Formats.Decimal | main.py:70 | a decimal numeral is non-empty, made of digits, without a leading zero, and is one digit exactly for numbers below ten |
| Formats.Tenths | main.py:70 | a size is written as digits with one `.` before the last digit; `TenthsInjective` shows different sizes are written differently |
| Formats.DecimalInjective | main.py:70 | different numbers are written differently |
| Formats.TenthsInjective | main.py:70 | different sizes (in tenths of a MB) are written differently with one decimal place |
| Formats.Label | main.py:70 | a label starts with the resolution and ends with ` MB`; `LabelInjective` shows it determines resolution, category and size |
| Formats.LabelOf | main.py:60-70 | the label of a stream the loop does not skip; `SameLabel` says which streams share one |
| Formats.LabelInjective | main.py:62-70 | when the resolution contains no `\|`, equal labels mean equal resolution, category and size |
| Formats.SameLabel | main.py:62-72 | for resolutions without `\|`, two streams get the same label exactly when resolution, adaptiveness and total size agree; these are the streams the dedup check folds together |
| Formats.ExampleSizes | main.py:70 | 450 and 200 tenths are written `45.0` and `20.0` |
| Formats.ExampleLabels | main.py:59-70 | a 1080p adaptive stream with audio added and a 480p progressive stream get the merged and the direct label, in query order |
| Formats.FailIndex | main.py:59-63 | the loop raises at the first resolved adaptive stream when there is no audio-only stream, and at no stream before it |
| Formats.Candidates | main.py:59-70 | the labelled streams are streams of the query, each with a resolution, each labelled by its own `LabelOf` |
| Formats.CandidatesAppend | main.py:59 | the loop handles each stream on its own: the pairs of a concatenation are the pairs of its parts |
| Formats.UnresolvedContributeNothing | main.py:60 | a stream without a resolution adds no label and no map entry, wherever it stands |
| Formats.CandidatesCover | main.py:59-70 | every stream that produces a label has that label among the pairs |
| Formats.FirstIndex | main.py:72-74 | the index of the first pair with a given label, and no earlier pair has it |
| Formats.FirstStreams | main.py:72-74 | the map's keys are exactly the labels, and each label maps to the stream of its first pair |
| Formats.FirstStreamsAppend | main.py:72-74 | one more pair adds its label to the map only when the label is new, and never overwrites an entry |
| Formats.Dedup | main.py:72-73 | the kept labels repeat none and are no more than the pairs; `DedupInOrder` and `DedupUnique` show they are exactly the first-occurrence order |
| Formats.OrderAppend | main.py:72-73 | appending a label only when it is not yet listed keeps the list in first-occurrence order |
| Formats.DedupInOrder | main.py:72-73 | the labels listed are every label of the pairs, each ranked by its first occurrence |
| Formats.DedupUnique | main.py:72-73 | any list in first-occurrence order is the deduplicated list: the order is fully determined |
| Formats.FirstOccurrenceOrderUnique | main.py:72-73 | two lists that both hold every label once in first-occurrence order are equal |
| Formats.DedupMatchesMap | main.py:72-74 | the menu labels are exactly the map's keys, and none repeats |
| Formats.BuildOptions | main.py:59-74 | the loop raises exactly when some stream needs the missing audio-only stream; it returns the deduplicated labels and the first-stream map of the streams before that point |
| Formats.EveryResolvedStreamListed | main.py:59-74 | every stream that produces a label is offered in the menu and in the map |
| Effects.Apply | main.py:92-128 | each effect changes only the widget it names: the menu and its selection only by a menu or selection update, the bar only by a bar update, the button only by a button update, the status and its colour only by a status update, and a status update without a colour keeps the colour |
| Effects.Replay | main.py:47-128 | the widgets after a log, applied in order; `ReplayConcat`, `ReplayLast` and `ReplayUntouched` state what it yields |
| Effects.ReplayConcat | main.py:47-128 | running two logs in turn is running their concatenation |
| Effects.ReplayUntouched | main.py:100-115 | downloads, the merge command and file removals change no widget |
| Effects.ReplayLast | main.py:92-128 | after a log, the bar shows the last fraction it was set to and the button the last state it was set to; the menu and its selection stay when the log sets neither |
| Effects.ProjectionsBracket | main.py:92-128 | the steps, bar values and button states of a log between a button disable and a button enable |
| Downloader.Loaded | main.py:76-79 | the menu is set first; the button is enabled and the first label selected exactly when there are labels; `LoadedDisplay` gives the widgets that result |
| Downloader.OptionsOffered | main.py:59-74 | every entry of the map built for a prefix of the streams is a stream of the video, resolved, offered under its own label |
| Downloader.NoLabelsIff | main.py:59-77 | when the loop does not raise, the menu is empty exactly when no stream has a resolution |
| Downloader.LoadedDisplay | main.py:51-81 | after the loop, the menu holds the labels; with a first label it is selected, the button enabled and success shown in green; with none, the selection and button stay and the index error shows in red |
| Downloader.Session.constructor | main.py:18-42 | the window opens with no video, no labels, the placeholder menu, a disabled button, "Ready" in gray and an empty bar |
| Downloader.Session.Choose | main.py:31-32 | picking one of the menu's choices records it and changes only the selection among the widgets |
| Downloader.Session.FetchFormats | main.py:47-81 | an empty link does nothing; a bad link shows its error; a good link replaces the video and empties the map; a raising query shows its error; the loop fills the map (partly, up to the stream that raises); then the labels are shown, or the index error when there are none; the map stays consistent with the video |
| Downloader.Session.ShowLabels | main.py:76-79 | the menu gets the labels, then the first is selected, the button enabled and success shown, or the index error when there is no first label |
| Downloader.Session.DownloadLogic | main.py:86-128 | a selection that is not a label does nothing; otherwise the log grows by exactly `DownloadTrace` of the selected stream, and the widgets are those of that trace applied to the old ones |
| Downloader.Session.RunAdaptive | main.py:96-115 | the five adaptive steps run in order until one raises; the result is the message of the first that raises, and is empty exactly when the download succeeds |
| Downloader.Session.RunProgressive | main.py:116-120 | the progressive download runs once into the output file; the result is its error, and is empty exactly when it succeeds |
| Transfer.MergeCommand | main.py:110 | the merge is an `ffmpeg` command of nine words that reads both temporary files and writes the output file last |
| Transfer.Stages | main.py:96-120 | the steps of each branch, each stage ending with the step that can raise; `StageShape` and `StagesShaped` state what each stage does |
| Transfer.StageShape | main.py:96-120 | stage `n` performs external step `n`, sets the bar to milestone `n` when there is one, and touches neither button nor menu |
| Transfer.DownloadTrace | main.py:91-128 | the handler's log starts by disabling the button and ends by enabling it; `TraceShape`, `DownloadExternal`, `DownloadProgress` and `DownloadDisplay` state the rest |
| Transfer.FirstRaised | main.py:91-126 | the first step whose outcome raised, and every step before it ended normally |
| Transfer.Reached | main.py:91-126 | the number of stages that start, at least one: those up to and including the first that raises; all of them, each ending normally, exactly when the download succeeds |
| Transfer.SucceedsIff | main.py:96-126 | a download succeeds exactly when the video download ends normally and, for an adaptive stream, so do the audio download, the merge and both removals |
| Transfer.ReachedAdaptive | main.py:96-115 | the merge starts exactly when both downloads ended normally; each removal starts exactly when every step before it ended normally |
| Transfer.RaisedAt | main.py:96-126 | when stage `i` is the first that raises, the stages up to `i` run and its message is reported |
| Transfer.NoneRaised | main.py:96-122 | when no step raises, every stage runs and the download succeeds |
| Transfer.TraceShape | main.py:92-128 | the handler's steps, bar values and button states are those of the stages that start, between a button disable and enable, with a full bar only on success |
| Transfer.DownloadButton | main.py:92-128 | the button is disabled first and enabled last, and nothing else touches it, whatever raises |
| Transfer.DownloadExternal | main.py:96-120 | the steps reaching outside the window are those of a complete download, in order, up to and including the first that raises |
| Transfer.AdaptiveStepsPrefix | main.py:100-115 | among the first `n` adaptive steps, the merge is there exactly when `n > 2`, each removal exactly when `n > 3` and `n > 4` |
| Transfer.DownloadCleanup | main.py:106-126 | the merge runs only after both downloads ended normally; the removal of the temporary video runs exactly when the merge ended normally, and that of the temporary audio exactly when the video's removal ended normally too; so a failed merge leaves both temporary files |
| Transfer.DownloadProgress | main.py:99-122 | the bar passes through the milestones of the stages that start, and is filled only on success |
| Transfer.DownloadProgressGrows | main.py:99-122 | the bar only grows, and is filled exactly when the download succeeds |
| Transfer.FilledOnlyAtEnd | main.py:99-122 | increasing milestones below a full bar, followed by a full bar or cut short, still increase, and reach a full bar exactly when followed by one |
| Transfer.DownloadDisplay | main.py:92-128 | afterwards the button is enabled and the menu and selection are unchanged. On success the status is the saved message in green with a full bar. On failure it is the download error in red, with the bar at the milestone of the stage that raised, or at the last milestone when a later step (a file removal) raised |
| Transfer.FailedProgress | main.py:99-126 | after a failed download's stages, the bar shows the milestone of the stage that raised, or the last milestone when a later step raised |

## Left out

- The window's layout, fonts and the fetch button are not modelled; they hold no logic.
- Each handler runs on a daemon thread. Interleavings of two handlers, and widget updates from a worker thread, are not modelled; each handler runs to completion.
- The library (pytubefix) is an input. That includes the mp4 filter and the order-by-resolution of the stream query, the video title, and `get_audio_only()`. A query that raises is `streamError`. An audio-only stream that is missing is `None`; reading its size then raises the `'NoneType'` error.
- Other exceptions the library could raise are not modelled. Examples: the title property failing inside the download's try block, or a size that is missing.
- Downloads, the `ffmpeg` run and `os.remove` are effects in the log with a given outcome. Nothing is read from or written to disk.
- Sizes are whole tenths of a MB, and a merged size is an exact sum. Python's float addition and the rounding of the one-decimal format are not modelled.
- The regular-expression substitution in the title filter is a character filter with the same nine characters.
- The progress bar's value is a `real`, not a float.
- Formats.LabelInjective: assumes the resolution text contains no `|`. Resolution strings from the library have the form `1080p`, and the source itself does not check this.
- Formats.SameLabel: assumes the same of both streams' resolutions, for the same reason.
- Downloader.Session.DownloadLogic: `if not selected_stream` is modelled as "the selection is not a key of the map". A stream object the map holds is always truthy.
- With no labels, line 76 sets the menu's choices to the empty list, then line 77 raises the index error; the model keeps the old selection and the button state, as the code does.
