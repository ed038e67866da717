/**
  What the download handler does once the selected label names a stream: the
  effects of its try block, cut short by the first step that raises, followed
  by the error or success status and, in every case, the re-enabled button.
 */
module Transfer {
  import opened Wrappers
  import opened Text
  import opened Formats
  import opened Effects

  /** How a step that can raise ended: normally, or with an exception and its message. */
  datatype Outcome = Ok | Raised(message: string)

  /**
    How each step that can raise ends: the download of the selected stream,
    the download of the audio-only stream, the merge command, and the removal
    of each temporary file. A progressive download uses only `video`.
   */
  datatype Outcomes = Outcomes(video: Outcome, audio: Outcome, merge: Outcome, removeVideo: Outcome, removeAudio: Outcome)

  /** The merge command: copy both tracks, without re-encoding, into the output file, overwriting it. */
  function MergeCommand(out: string): (argv: seq<string>)
    ensures |argv| == 9 && argv[0] == "ffmpeg" && argv[|argv| - 1] == out
    ensures VideoTemp in argv && AudioTemp in argv
  {
    ["ffmpeg", "-y", "-i", VideoTemp, "-i", AudioTemp, "-c", "copy", out]
  }

  /**
    The try block cut into stages. Each stage is some widget updates followed
    by the one step that can raise: an adaptive stream is downloaded to a
    temporary file, the audio-only stream to another, both are merged into the
    output file and the temporary files are removed; a progressive stream is
    downloaded straight to the output file.
   */
  function Stages(s: Stream, audioItag: nat, out: string): seq<seq<Effect>> {
    if s.isAdaptive then
      [ [SetStatus(VideoTrackText, Some(White)), SetProgress(0.2), Download(s.itag, VideoTemp)],
        [SetStatus(AudioTrackText, None), SetProgress(0.5), Download(audioItag, AudioTemp)],
        [SetStatus(MergingText, None), SetProgress(0.8), RunCommand(MergeCommand(out))],
        [RemoveFile(VideoTemp)],
        [RemoveFile(AudioTemp)] ]
    else
      [ [SetStatus(StandardText, None), SetProgress(0.5), Download(s.itag, out)] ]
  }

  /** The outcome of the step that ends each stage. */
  function StageOutcomes(s: Stream, o: Outcomes): seq<Outcome> {
    if s.isAdaptive then [o.video, o.audio, o.merge, o.removeVideo, o.removeAudio] else [o.video]
  }

  /** The steps that reach outside the window when none raises, in order. */
  function ExternalSteps(s: Stream, audioItag: nat, out: string): seq<Effect> {
    if s.isAdaptive then
      [Download(s.itag, VideoTemp), Download(audioItag, AudioTemp), RunCommand(MergeCommand(out)),
       RemoveFile(VideoTemp), RemoveFile(AudioTemp)]
    else
      [Download(s.itag, out)]
  }

  /** The fractions the progress bar is set to before the last step. */
  function Milestones(s: Stream): seq<real> {
    if s.isAdaptive then [0.2, 0.5, 0.8] else [0.5]
  }

  /** Index of the first outcome that raised, or the length when none did. */
  function FirstRaised(rs: seq<Outcome>): (k: nat)
    ensures k <= |rs|
    ensures k < |rs| ==> rs[k].Raised?
    ensures forall j :: 0 <= j < k ==> rs[j].Ok?
  {
    if rs == [] then 0
    else if rs[0].Raised? then 0
    else 1 + FirstRaised(rs[1..])
  }

  /** The stages run one after the other. */
  function Flatten(ss: seq<seq<Effect>>): seq<Effect>
    decreases |ss|
  {
    if ss == [] then [] else Flatten(ss[..|ss| - 1]) + ss[|ss| - 1]
  }

  /** Whether every step of the download ended normally. */
  predicate Succeeds(s: Stream, o: Outcomes) {
    FirstRaised(StageOutcomes(s, o)) == |StageOutcomes(s, o)|
  }

  /** The message of the first step that raised. */
  function FailureMessage(s: Stream, o: Outcomes): string
    requires !Succeeds(s, o)
  {
    StageOutcomes(s, o)[FirstRaised(StageOutcomes(s, o))].message
  }

  /** How many stages start: all of them, or those up to the first that raises. */
  function Reached(s: Stream, o: Outcomes): (n: nat)
    ensures 1 <= n <= |StageOutcomes(s, o)|
    ensures Succeeds(s, o) <==> n == |StageOutcomes(s, o)| && forall j :: 0 <= j < n ==> StageOutcomes(s, o)[j].Ok?
  {
    var rs := StageOutcomes(s, o);
    var k := FirstRaised(rs);
    if k < |rs| then k + 1 else |rs|
  }

  /** The effects of the stages that start. */
  function Attempted(s: Stream, audioItag: nat, out: string, o: Outcomes): seq<Effect> {
    Flatten(Stages(s, audioItag, out)[..Reached(s, o)])
  }

  /** The effects after the try block's last step: the saved status on success, the error status otherwise. */
  function Conclusion(s: Stream, out: string, o: Outcomes): seq<Effect> {
    if Succeeds(s, o) then Saved(out) else Failed(FailureMessage(s, o))
  }

  /** The end of a download that succeeded: a full bar and the saved status in green. */
  function Saved(out: string): seq<Effect> {
    [SetProgress(1.0), SetStatus(SavedStatus(out), Some(Green))]
  }

  /** The except clause: the error status in red. */
  function Failed(message: string): seq<Effect> {
    [SetStatus(DownloadErrorStatus(message), Some(Red))]
  }

  /**
    The effects of the download handler for a stream that has a resolution.
    The button is disabled, the stages run until one raises, and then either
    the error status or the full bar and the saved status follow; the button
    is enabled again in every case.
   */
  function DownloadTrace(s: Stream, audioItag: nat, title: string, o: Outcomes): (t: seq<Effect>)
    requires HasResolution(s)
    ensures 3 <= |t| && t[0] == SetButton(false) && t[|t| - 1] == SetButton(true)
  {
    var out := OutputName(title, s.resolution.value);
    [SetButton(false)] + Attempted(s, audioItag, out, o) + Conclusion(s, out, o) + [SetButton(true)]
  }

  /** The projections of a stage of three effects: a status, a fraction, and the step that can raise. */
  lemma StageOfThree(status: Effect, f: real, x: Effect)
    requires status.SetStatus? && IsExternal(x)
    ensures External([status, SetProgress(f), x]) == [x]
    ensures Progress([status, SetProgress(f), x]) == [f]
    ensures ButtonStates([status, SetProgress(f), x]) == []
    ensures KeepsMenu([status, SetProgress(f), x])
  {
    assert [status, SetProgress(f), x] == [status] + [SetProgress(f)] + [x];
    assert KeepsMenu([status]) && KeepsMenu([SetProgress(f)]) && KeepsMenu([x]);
    KeepsMenuConcat([status], [SetProgress(f)]);
    KeepsMenuConcat([status] + [SetProgress(f)], [x]);
    ProjectionsConcat([status], [SetProgress(f)]);
    ProjectionsConcat([status] + [SetProgress(f)], [x]);
    ProjectionsUnit(status);
    ProjectionsUnit(SetProgress(f));
    ProjectionsUnit(x);
  }

  /** What each stage does, seen through the projections of a log. */
  lemma StageShape(s: Stream, audioItag: nat, out: string, n: nat)
    requires n < |Stages(s, audioItag, out)|
    ensures External(Stages(s, audioItag, out)[n]) == [ExternalSteps(s, audioItag, out)[n]]
    ensures ButtonStates(Stages(s, audioItag, out)[n]) == []
    ensures Progress(Stages(s, audioItag, out)[n]) == if n < |Milestones(s)| then [Milestones(s)[n]] else []
    ensures KeepsMenu(Stages(s, audioItag, out)[n])
  {
    var st := Stages(s, audioItag, out);
    if s.isAdaptive && n >= 3 {
      ProjectionsUnit(st[n][0]);
      assert st[n] == [st[n][0]];
    } else {
      StageOfThree(st[n][0], st[n][1].fraction, st[n][2]);
      assert st[n] == [st[n][0], SetProgress(st[n][1].fraction), st[n][2]];
    }
  }

  lemma FlattenSnoc(ss: seq<seq<Effect>>, n: nat)
    requires n < |ss|
    ensures Flatten(ss[..n + 1]) == Flatten(ss[..n]) + ss[n]
  {
    assert ss[..n + 1][..n] == ss[..n];
  }

  /** Stage `i` of `st` performs the one external step `xs[i]`. */
  ghost predicate StepsShaped(st: seq<seq<Effect>>, xs: seq<Effect>) {
    |st| == |xs| && forall i :: 0 <= i < |st| ==> External(st[i]) == [xs[i]]
  }

  /** Stage `i` of `st` sets the bar to `ms[i]` when there is one, and leaves it alone otherwise. */
  ghost predicate ProgressShaped(st: seq<seq<Effect>>, ms: seq<real>) {
    |ms| <= |st| && forall i :: 0 <= i < |st| ==> Progress(st[i]) == if i < |ms| then [ms[i]] else []
  }

  /** No stage of `st` touches the button or the menu. */
  ghost predicate QuietStages(st: seq<seq<Effect>>) {
    forall i :: 0 <= i < |st| ==> ButtonStates(st[i]) == [] && KeepsMenu(st[i])
  }

  /** The first `n + 1` elements are the first `n` and then element `n`. */
  lemma TakeSnoc<T>(xs: seq<T>, n: nat)
    requires n < |xs|
    ensures xs[..n + 1] == xs[..n] + [xs[n]]
  {
  }

  lemma StagesShaped(s: Stream, audioItag: nat, out: string)
    ensures StepsShaped(Stages(s, audioItag, out), ExternalSteps(s, audioItag, out))
    ensures ProgressShaped(Stages(s, audioItag, out), Milestones(s))
    ensures QuietStages(Stages(s, audioItag, out))
  {
    forall i | 0 <= i < |Stages(s, audioItag, out)|
      ensures External(Stages(s, audioItag, out)[i]) == [ExternalSteps(s, audioItag, out)[i]]
      ensures Progress(Stages(s, audioItag, out)[i]) == if i < |Milestones(s)| then [Milestones(s)[i]] else []
      ensures ButtonStates(Stages(s, audioItag, out)[i]) == [] && KeepsMenu(Stages(s, audioItag, out)[i])
    {
      StageShape(s, audioItag, out, i);
    }
  }

  /** The first `n` of shaped stages perform the first `n` external steps. */
  lemma {:induction false} PrefixSteps(st: seq<seq<Effect>>, xs: seq<Effect>, n: nat)
    requires StepsShaped(st, xs) && n <= |st|
    ensures External(Flatten(st[..n])) == xs[..n]
  {
    if n == 0 {
      assert st[..0] == [];
    } else {
      var before, stage := Flatten(st[..n - 1]), st[n - 1];
      assert External(stage) == [xs[n - 1]];
      PrefixSteps(st, xs, n - 1);
      FlattenSnoc(st, n - 1);
      ExternalConcat(before, stage);
      TakeSnoc(xs, n - 1);
      assert External(before + stage) == xs[..n - 1] + [xs[n - 1]];
    }
  }

  /** The first `n` of shaped stages touch neither the button nor the menu. */
  lemma {:induction false} PrefixQuiet(st: seq<seq<Effect>>, n: nat)
    requires QuietStages(st) && n <= |st|
    ensures ButtonStates(Flatten(st[..n])) == []
    ensures KeepsMenu(Flatten(st[..n]))
  {
    if n == 0 {
      assert st[..0] == [];
    } else {
      var before, stage := Flatten(st[..n - 1]), st[n - 1];
      assert ButtonStates(stage) == [] && KeepsMenu(stage);
      PrefixQuiet(st, n - 1);
      FlattenSnoc(st, n - 1);
      ButtonStatesConcat(before, stage);
      KeepsMenuConcat(before, stage);
      assert ButtonStates(before + stage) == [] + [];
    }
  }

  /** The first `n` of shaped stages set the bar to the milestones among them. */
  lemma {:induction false} PrefixProgress(st: seq<seq<Effect>>, ms: seq<real>, n: nat)
    requires ProgressShaped(st, ms) && n <= |st|
    ensures Progress(Flatten(st[..n])) == ms[..if n < |ms| then n else |ms|]
  {
    if n == 0 {
      assert st[..0] == [];
    } else {
      var before, stage := Flatten(st[..n - 1]), st[n - 1];
      PrefixProgress(st, ms, n - 1);
      FlattenSnoc(st, n - 1);
      ProgressConcat(before, stage);
      MilestonesSnoc(ms, n - 1, Progress(before), Progress(stage));
    }
  }

  /** The milestones of the first `m` stages, followed by those of stage `m`, are those of the first `m + 1`. */
  lemma MilestonesSnoc(ms: seq<real>, m: nat, pre: seq<real>, step: seq<real>)
    requires pre == ms[..if m < |ms| then m else |ms|]
    requires step == if m < |ms| then [ms[m]] else []
    ensures pre + step == ms[..if m + 1 < |ms| then m + 1 else |ms|]
  {
    if m < |ms| {
      TakeSnoc(ms, m);
    } else {
      assert step == [];
    }
  }

  /** The stages that start, seen through the projections of a log. */
  lemma AttemptedShape(s: Stream, audioItag: nat, out: string, o: Outcomes)
    ensures External(Attempted(s, audioItag, out, o)) == ExternalSteps(s, audioItag, out)[..Reached(s, o)]
    ensures ButtonStates(Attempted(s, audioItag, out, o)) == []
    ensures var ms := Milestones(s);
      Progress(Attempted(s, audioItag, out, o)) == ms[..if Reached(s, o) < |ms| then Reached(s, o) else |ms|]
    ensures KeepsMenu(Attempted(s, audioItag, out, o))
  {
    StagesShaped(s, audioItag, out);
    PrefixSteps(Stages(s, audioItag, out), ExternalSteps(s, audioItag, out), Reached(s, o));
    PrefixQuiet(Stages(s, audioItag, out), Reached(s, o));
    PrefixProgress(Stages(s, audioItag, out), Milestones(s), Reached(s, o));
  }

  /** What the saved status does to the projections and the widgets. */
  lemma SavedShape(d: Display, out: string)
    ensures External(Saved(out)) == [] && ButtonStates(Saved(out)) == []
    ensures Progress(Saved(out)) == [1.0] && KeepsMenu(Saved(out))
    ensures Replay(d, Saved(out)) == d.(progress := 1.0, status := SavedStatus(out), tone := Green)
  {
    FillThenStatus(d, 1.0, SavedStatus(out), Green);
  }

  /** A bar update followed by a coloured status update, for any fraction and text. */
  lemma FillThenStatus(d: Display, f: real, text: string, tone: Tone)
    ensures var t := [SetProgress(f), SetStatus(text, Some(tone))];
      && External(t) == [] && ButtonStates(t) == [] && Progress(t) == [f] && KeepsMenu(t)
      && Replay(d, t) == d.(progress := f, status := text, tone := tone)
  {
    var status := SetStatus(text, Some(tone));
    assert [SetProgress(f), status] == [SetProgress(f)] + [status];
    assert KeepsMenu([SetProgress(f)]) && KeepsMenu([status]);
    KeepsMenuConcat([SetProgress(f)], [status]);
    ProjectionsConcat([SetProgress(f)], [status]);
    ProjectionsUnit(SetProgress(f));
    ProjectionsUnit(status);
    ReplayConcat(d, [SetProgress(f)], [status]);
    assert [status][..0] == [] && [SetProgress(f)][..0] == [];
  }

  /** What the error status does to the projections and the widgets. */
  lemma FailedShape(d: Display, message: string)
    ensures External(Failed(message)) == [] && ButtonStates(Failed(message)) == []
    ensures Progress(Failed(message)) == [] && KeepsMenu(Failed(message))
    ensures Replay(d, Failed(message)) == d.(status := DownloadErrorStatus(message), tone := Red)
  {
    ProjectionsUnit(Failed(message)[0]);
    assert Failed(message)[..0] == [];
  }

  /** The projections of the effects that conclude the try block. */
  lemma ConclusionShape(s: Stream, out: string, o: Outcomes)
    ensures External(Conclusion(s, out, o)) == []
    ensures ButtonStates(Conclusion(s, out, o)) == []
    ensures Progress(Conclusion(s, out, o)) == if Succeeds(s, o) then [1.0] else []
    ensures KeepsMenu(Conclusion(s, out, o))
  {
    if Succeeds(s, o) {
      SavedShape(Initial, out);
    } else {
      FailedShape(Initial, FailureMessage(s, o));
    }
  }

  /** The download handler's log, seen through its projections. */
  lemma TraceShape(s: Stream, audioItag: nat, title: string, o: Outcomes)
    requires HasResolution(s)
    ensures var out := OutputName(title, s.resolution.value);
      var t := DownloadTrace(s, audioItag, title, o);
      && External(t) == External(Attempted(s, audioItag, out, o))
      && ButtonStates(t) == [false] + ButtonStates(Attempted(s, audioItag, out, o)) + [true]
      && Progress(t) == Progress(Attempted(s, audioItag, out, o)) + if Succeeds(s, o) then [1.0] else []
  {
    var out := OutputName(title, s.resolution.value);
    var a := Attempted(s, audioItag, out, o);
    var c := Conclusion(s, out, o);
    ProjectionsBracket(false, a, c, true);
    ConclusionShape(s, out, o);
  }

  /**
    The button is disabled first and enabled last, and nothing else touches
    it: the finally clause runs whether or not a step raised.
   */
  lemma DownloadButton(s: Stream, audioItag: nat, title: string, o: Outcomes)
    requires HasResolution(s)
    ensures ButtonStates(DownloadTrace(s, audioItag, title, o)) == [false, true]
  {
    TraceShape(s, audioItag, title, o);
    AttemptedShape(s, audioItag, OutputName(title, s.resolution.value), o);
  }

  /**
    The steps reaching outside the window are those of a complete download,
    in order, up to and including the first that raises: a failed download is
    followed by no merge, and a failed merge by no removal.
   */
  lemma DownloadExternal(s: Stream, audioItag: nat, title: string, o: Outcomes)
    requires HasResolution(s)
    ensures var steps := ExternalSteps(s, audioItag, OutputName(title, s.resolution.value));
      External(DownloadTrace(s, audioItag, title, o)) ==
        if Succeeds(s, o) then steps else steps[..FirstRaised(StageOutcomes(s, o)) + 1]
  {
    var out := OutputName(title, s.resolution.value);
    TraceShape(s, audioItag, title, o);
    AttemptedShape(s, audioItag, out, o);
    assert ExternalSteps(s, audioItag, out)[..|StageOutcomes(s, o)|] == ExternalSteps(s, audioItag, out);
  }

  /**
    The progress bar passes through the milestones of the stages that start,
    and is filled only when no step raised.
   */
  lemma DownloadProgress(s: Stream, audioItag: nat, title: string, o: Outcomes)
    requires HasResolution(s)
    ensures var k := FirstRaised(StageOutcomes(s, o));
      var ms := Milestones(s);
      Progress(DownloadTrace(s, audioItag, title, o)) ==
        if Succeeds(s, o) then ms + [1.0] else ms[..if k + 1 < |ms| then k + 1 else |ms|]
  {
    var out := OutputName(title, s.resolution.value);
    TraceShape(s, audioItag, title, o);
    AttemptedShape(s, audioItag, out, o);
    assert Milestones(s)[..|Milestones(s)|] == Milestones(s);
  }

  /** A download succeeds exactly when every step it runs ends normally. */
  lemma SucceedsIff(s: Stream, o: Outcomes)
    ensures Succeeds(s, o) <==>
      o.video.Ok? && (s.isAdaptive ==> o.audio.Ok? && o.merge.Ok? && o.removeVideo.Ok? && o.removeAudio.Ok?)
  {
    var rs := StageOutcomes(s, o);
    if Succeeds(s, o) {
      assert rs[0].Ok?;
      if s.isAdaptive {
        assert rs[1].Ok? && rs[2].Ok? && rs[3].Ok? && rs[4].Ok?;
      }
    } else {
      assert rs[FirstRaised(rs)].Raised?;
    }
  }

  /** How far an adaptive download gets, in terms of the outcomes of its steps. */
  lemma ReachedAdaptive(s: Stream, o: Outcomes)
    requires s.isAdaptive
    ensures Reached(s, o) > 2 <==> o.video.Ok? && o.audio.Ok?
    ensures Reached(s, o) > 3 <==> o.video.Ok? && o.audio.Ok? && o.merge.Ok?
    ensures Reached(s, o) > 4 <==> o.video.Ok? && o.audio.Ok? && o.merge.Ok? && o.removeVideo.Ok?
  {
    var rs := StageOutcomes(s, o);
    var k := FirstRaised(rs);
    assert rs[0] == o.video && rs[1] == o.audio && rs[2] == o.merge && rs[3] == o.removeVideo;
    if o.video.Ok? && o.audio.Ok? {
      assert k != 0 && k != 1;
    }
    if o.video.Ok? && o.audio.Ok? && o.merge.Ok? {
      assert k != 0 && k != 1 && k != 2;
    }
    if o.video.Ok? && o.audio.Ok? && o.merge.Ok? && o.removeVideo.Ok? {
      assert k != 0 && k != 1 && k != 2 && k != 3;
    }
  }

  /** Which external steps of an adaptive download lie in its first `n`. */
  lemma AdaptiveStepsPrefix(s: Stream, audioItag: nat, out: string, n: nat)
    requires s.isAdaptive && n <= 5
    ensures var pre := ExternalSteps(s, audioItag, out)[..n];
      && (RunCommand(MergeCommand(out)) in pre <==> n > 2)
      && (RemoveFile(VideoTemp) in pre <==> n > 3)
      && (RemoveFile(AudioTemp) in pre <==> n > 4)
  {
    var xs := ExternalSteps(s, audioItag, out);
    var merge := RunCommand(MergeCommand(out));
    assert VideoTemp != AudioTemp;
    assert xs[..5] == xs;
    assert xs[..4] == [xs[0], xs[1], merge, RemoveFile(VideoTemp)];
    assert xs[..3] == [xs[0], xs[1], merge];
    assert xs[..2] == [xs[0], xs[1]];
    assert xs[..1] == [xs[0]];
  }

  /**
    The merge command runs only after both downloads ended normally, and each
    temporary file is removed only after everything before its removal ended
    normally: when the merge fails both temporary files stay.
   */
  lemma DownloadCleanup(s: Stream, audioItag: nat, title: string, o: Outcomes)
    requires HasResolution(s) && s.isAdaptive
    ensures var ext := External(DownloadTrace(s, audioItag, title, o));
      && (RunCommand(MergeCommand(OutputName(title, s.resolution.value))) in ext <==> o.video.Ok? && o.audio.Ok?)
      && (RemoveFile(VideoTemp) in ext <==> o.video.Ok? && o.audio.Ok? && o.merge.Ok?)
      && (RemoveFile(AudioTemp) in ext <==> o.video.Ok? && o.audio.Ok? && o.merge.Ok? && o.removeVideo.Ok?)
  {
    var out := OutputName(title, s.resolution.value);
    TraceShape(s, audioItag, title, o);
    AttemptedShape(s, audioItag, out, o);
    ReachedAdaptive(s, o);
    AdaptiveStepsPrefix(s, audioItag, out, Reached(s, o));
  }

  /**
    The fractions the bar is set to only grow, and the bar is filled exactly
    when the download succeeds.
   */
  lemma DownloadProgressGrows(s: Stream, audioItag: nat, title: string, o: Outcomes)
    requires HasResolution(s)
    ensures Increasing(Progress(DownloadTrace(s, audioItag, title, o)))
    ensures 1.0 in Progress(DownloadTrace(s, audioItag, title, o)) <==> Succeeds(s, o)
  {
    DownloadProgress(s, audioItag, title, o);
    var k := FirstRaised(StageOutcomes(s, o));
    var ms := Milestones(s);
    assert Increasing(ms) && forall i :: 0 <= i < |ms| ==> ms[i] < 1.0;
    FilledOnlyAtEnd(ms, Succeeds(s, o), if k + 1 < |ms| then k + 1 else |ms|);
  }

  /**
    After the handler, the button is enabled, the menu is as it was, and the
    status says where the file was saved, in green with a full bar, or why the
    download failed, in red with the bar at the last milestone reached.
   */
  lemma DownloadDisplay(d: Display, s: Stream, audioItag: nat, title: string, o: Outcomes)
    requires HasResolution(s)
    ensures var r := Replay(d, DownloadTrace(s, audioItag, title, o));
      var out := OutputName(title, s.resolution.value);
      var ms := Milestones(s);
      && r.buttonEnabled && r.menu == d.menu && r.selection == d.selection
      && (Succeeds(s, o) ==> r.status == SavedStatus(out) && r.tone == Green && r.progress == 1.0)
      && (!Succeeds(s, o) ==>
            && r.status == DownloadErrorStatus(FailureMessage(s, o)) && r.tone == Red
            && r.progress == ms[if FirstRaised(StageOutcomes(s, o)) < |ms| then FirstRaised(StageOutcomes(s, o)) else |ms| - 1])
  {
    var out := OutputName(title, s.resolution.value);
    var a := Attempted(s, audioItag, out, o);
    var d1 := d.(buttonEnabled := false);
    var m := Replay(d1, a);
    ReplayBracket(d, false, a, Conclusion(s, out, o), true);
    AttemptedShape(s, audioItag, out, o);
    ReplayLast(d1, a);
    if Succeeds(s, o) {
      SavedShape(m, out);
    } else {
      FailedShape(m, FailureMessage(s, o));
      FailedProgress(d1, s, audioItag, out, o);
    }
  }

  /** After the stages of a failed download, the bar shows the milestone of the stage that raised, or the last one. */
  lemma FailedProgress(d: Display, s: Stream, audioItag: nat, out: string, o: Outcomes)
    requires !Succeeds(s, o)
    ensures var k := FirstRaised(StageOutcomes(s, o));
      var ms := Milestones(s);
      Replay(d, Attempted(s, audioItag, out, o)).progress == ms[if k < |ms| then k else |ms| - 1]
  {
    var a := Attempted(s, audioItag, out, o);
    AttemptedShape(s, audioItag, out, o);
    ReplayLast(d, a);
    var ms := Milestones(s);
    var n := if Reached(s, o) < |ms| then Reached(s, o) else |ms|;
    assert Progress(a) == ms[..n] && 0 < n;
  }

  /**
    Milestones below a full bar that increase, followed by a full bar when
    `done`, or cut short otherwise, increase and reach a full bar exactly
    when `done`.
   */
  lemma FilledOnlyAtEnd(ms: seq<real>, done: bool, n: nat)
    requires Increasing(ms) && (forall i :: 0 <= i < |ms| ==> ms[i] < 1.0) && n <= |ms|
    ensures var p := if done then ms + [1.0] else ms[..n];
      Increasing(p) && (1.0 in p <==> done)
  {
    if done {
      IncreasingSnoc(ms, 1.0);
      assert (ms + [1.0])[|ms|] == 1.0;
    } else {
      IncreasingPrefix(ms, n);
      assert forall i :: 0 <= i < n ==> ms[..n][i] < 1.0;
    }
  }

  /** When stage `i` is the first whose step raises, the stages up to it start and its message is shown. */
  lemma RaisedAt(s: Stream, audioItag: nat, out: string, o: Outcomes, i: nat)
    requires i < |StageOutcomes(s, o)| && StageOutcomes(s, o)[i].Raised?
    requires forall j :: 0 <= j < i ==> StageOutcomes(s, o)[j].Ok?
    ensures !Succeeds(s, o) && FailureMessage(s, o) == StageOutcomes(s, o)[i].message
    ensures Attempted(s, audioItag, out, o) == Flatten(Stages(s, audioItag, out)[..i + 1])
  {
  }

  /** When no step raises, every stage starts. */
  lemma NoneRaised(s: Stream, audioItag: nat, out: string, o: Outcomes)
    requires forall j :: 0 <= j < |StageOutcomes(s, o)| ==> StageOutcomes(s, o)[j].Ok?
    ensures Succeeds(s, o)
    ensures Attempted(s, audioItag, out, o) == Flatten(Stages(s, audioItag, out))
  {
    assert Stages(s, audioItag, out)[..|StageOutcomes(s, o)|] == Stages(s, audioItag, out);
  }

  /** A log followed by the first `n` of five stages, for each `n`. */
  lemma FlattenFive(e: seq<Effect>, st: seq<seq<Effect>>)
    requires |st| == 5
    ensures e + Flatten(st[..1]) == e + st[0]
    ensures e + Flatten(st[..2]) == e + st[0] + st[1]
    ensures e + Flatten(st[..3]) == e + st[0] + st[1] + st[2]
    ensures e + Flatten(st[..4]) == e + st[0] + st[1] + st[2] + st[3]
    ensures e + Flatten(st[..5]) == e + st[0] + st[1] + st[2] + st[3] + st[4]
  {
    assert Flatten(st[..0]) == [];
    FlattenSnoc(st, 0);
    FlattenSnoc(st, 1);
    FlattenSnoc(st, 2);
    FlattenSnoc(st, 3);
    FlattenSnoc(st, 4);
  }

  /** A log followed by the first of some stages. */
  lemma FlattenOne(e: seq<Effect>, st: seq<seq<Effect>>)
    requires |st| >= 1
    ensures e + Flatten(st[..1]) == e + st[0]
  {
    assert Flatten(st[..0]) == [];
    FlattenSnoc(st, 0);
  }
}
