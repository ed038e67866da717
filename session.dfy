/**
  The downloader window's state between handler runs (the opened video, the
  map from menu labels to streams, the widgets) and its two handlers: fetching
  the formats of a link and downloading the selected one.
 */
module Downloader {
  import opened Wrappers
  import opened Text
  import opened Formats
  import opened Effects
  import opened Transfer

  /**
    A video as the library presents it: its title, its mp4 streams ordered by
    resolution from the highest, and its audio-only stream when it has one.
   */
  datatype Video = Video(title: string, streams: seq<Stream>, audio: Option<Stream>)

  /** The size of the audio-only stream, when there is one. */
  function AudioSize(v: Video): Option<nat> {
    if v.audio.Some? then Some(v.audio.value.sizeTenths) else None
  }

  /** The tag of the audio-only stream; only read for adaptive streams, which are offered only when it exists. */
  function AudioItag(v: Video): nat {
    if v.audio.Some? then v.audio.value.itag else 0
  }

  /**
    What opening a link gives: an exception (the link is not recognised), or a
    video whose stream query either raises or answers.
   */
  datatype Lookup = BadUrl(error: string) | Opened(video: Video, streamError: Option<string>)

  /** The message of the exception raised by selecting the first of no labels. */
  const IndexErrorText := "list index out of range"
  /** The message of the exception raised by reading the size of a missing audio-only stream. */
  const MissingAudioText := "'NoneType' object has no attribute 'filesize_mb'"

  /** The status shown while the fetch handler works. */
  const Searching := SetStatus(SearchingText, Some(Yellow))

  /**
    The effects of the fetch handler once its loop ends without raising: the
    menu gets the labels; the first label is selected, the button enabled and
    success shown, unless there is no first label, which raises.
   */
  function Loaded(values: seq<string>): (t: seq<Effect>)
    ensures |t| >= 2 && t[0] == SetMenu(values)
    ensures SetButton(true) in t <==> values != []
    ensures values != [] ==> Select(values[0]) in t
  {
    [SetMenu(values)] +
      if values == [] then [SetStatus(ErrorStatus(IndexErrorText), Some(Red))]
      else [Select(values[0]), SetButton(true), SetStatus(LoadedText, Some(Green))]
  }

  /** The stream `s` of the video is offered under the label `l`. */
  predicate Offered(v: Video, l: string, s: Stream) {
    s in v.streams && Produces(s, AudioSize(v)) && l == LabelOf(s, AudioSize(v))
  }

  /** Every entry of the map built for a prefix of the streams is a stream offered under its label. */
  lemma OptionsOffered(v: Video, k: nat)
    requires k <= |v.streams|
    ensures var m := FirstStreams(Candidates(v.streams[..k], AudioSize(v)));
      forall l :: l in m ==> Offered(v, l, m[l])
  {
    var cs := Candidates(v.streams[..k], AudioSize(v));
    var m := FirstStreams(cs);
    forall l | l in m
      ensures Offered(v, l, m[l])
    {
      var j := FirstIndex(cs, l);
      assert cs[j].1 in v.streams[..k];
    }
  }

  /**
    When no stream makes the loop raise, it builds no label exactly when no
    stream has a resolution.
   */
  lemma NoLabelsIff(ss: seq<Stream>, audio: Option<nat>)
    requires FailIndex(ss, audio) == |ss|
    ensures Dedup(Candidates(ss, audio)) == [] <==> forall i :: 0 <= i < |ss| ==> !HasResolution(ss[i])
  {
    var cs := Candidates(ss, audio);
    DedupMatchesMap(cs);
    if Dedup(cs) == [] {
      forall i | 0 <= i < |ss|
        ensures !HasResolution(ss[i])
      {
        if HasResolution(ss[i]) {
          EveryResolvedStreamListed(ss, audio, i);
        }
      }
    } else {
      var l := Dedup(cs)[0];
      assert l in FirstStreams(cs);
      var j := FirstIndex(cs, l);
      var i :| 0 <= i < |ss| && ss[i] == cs[j].1;
      assert HasResolution(ss[i]);
    }
  }

  /**
    The widgets after a fetch whose loop ended without raising: the menu holds
    the labels; with a first label it is selected, the button is enabled and
    success is shown in green; with none, the selection and the button stay as
    they were and the index error is shown in red.
   */
  lemma LoadedDisplay(d: Display, values: seq<string>)
    ensures var r := Replay(d, [Searching] + Loaded(values));
      && r.menu == values && r.progress == d.progress
      && (values != [] ==>
            r.selection == values[0] && r.buttonEnabled && r.status == LoadedText && r.tone == Green)
      && (values == [] ==>
            && r.selection == d.selection && r.buttonEnabled == d.buttonEnabled
            && r.status == ErrorStatus(IndexErrorText) && r.tone == Red)
  {
    var d1 := Apply(d, Searching);
    var d2 := Apply(d1, SetMenu(values));
    ReplayConcat(d, [Searching], Loaded(values));
    assert [Searching][..0] == [];
    assert Replay(d, [Searching]) == d1;
    var tail := Loaded(values)[1..];
    assert Loaded(values) == [SetMenu(values)] + tail;
    ReplayConcat(d1, [SetMenu(values)], tail);
    assert [SetMenu(values)][..0] == [];
    assert Replay(d1, [SetMenu(values)]) == d2;
    if values == [] {
      assert tail[..0] == [];
    } else {
      var sel := Select(values[0]);
      var on := SetButton(true);
      var ok := SetStatus(LoadedText, Some(Green));
      assert tail == [sel, on, ok];
      assert tail[..2][..1][..0] == [];
      assert tail[..2][..1] == [sel];
      assert tail[..2] == [sel, on];
      assert Replay(d2, [sel]) == Apply(d2, sel);
      assert Replay(d2, [sel, on]) == Apply(Apply(d2, sel), on);
      assert Replay(d2, tail) == Apply(Apply(Apply(d2, sel), on), ok);
    }
  }

  /** The downloader window. */
  class Session {
    /** The video of the last link that opened, if any. */
    var yt: Option<Video>
    /** The stream behind each label of the menu. */
    var streamOptions: map<string, Stream>
    /** Everything the handlers have done to the widgets and the outside world, in order. */
    var effects: seq<Effect>

    /** The widgets the handlers touch, as the effects so far left them. */
    function Widgets(): Display
      reads this
    {
      Replay(Initial, effects)
    }

    /** Every label of the map names a stream of the current video offered under it. */
    ghost predicate Valid()
      reads this
    {
      && (yt.None? ==> streamOptions == map[])
      && (forall l :: l in streamOptions ==> yt.Some? && Offered(yt.value, l, streamOptions[l]))
    }

    /** The window as it opens: no video, no labels, the initial widgets. */
    constructor ()
      ensures Valid()
      ensures yt.None? && streamOptions == map[] && effects == [] && Widgets() == Initial
    {
      yt := None;
      streamOptions := map[];
      effects := [];
    }

    /** Performs one effect and records it. */
    method Emit(e: Effect)
      modifies this
      ensures effects == old(effects) + [e]
      ensures yt == old(yt) && streamOptions == old(streamOptions)
    {
      effects := effects + [e];
    }

    /**
      The user picks one of the menu's choices; the download handler reads
      that choice.
     */
    method Choose(choice: string)
      requires choice in Widgets().menu
      modifies this
      ensures effects == old(effects) + [Select(choice)]
      ensures Widgets() == old(Widgets()).(selection := choice)
      ensures yt == old(yt) && streamOptions == old(streamOptions)
    {
      ghost var e0 := effects;
      Emit(Select(choice));
      assert effects[..|effects| - 1] == e0;
    }

    /**
      The fetch handler, for the text of the link field and what opening it
      gives. An empty link does nothing. Otherwise the searching status is
      shown, and then:
      - a link that does not open shows its error and changes nothing else;
      - an opened link becomes the current video and the map is emptied; a
        stream query that raises shows its error;
      - the loop fills the map; if it raises on a missing audio-only stream
        it shows that error and keeps the part of the map it built;
      - otherwise the menu gets the labels in first-occurrence order and the
        fetch completes as `Loaded` says.
     */
    method FetchFormats(url: string, lookup: Lookup)
      requires Valid()
      modifies this
      ensures Valid()
      ensures url == "" ==>
        yt == old(yt) && streamOptions == old(streamOptions) && effects == old(effects)
      ensures url != "" && lookup.BadUrl? ==>
        && yt == old(yt) && streamOptions == old(streamOptions)
        && effects == old(effects) + [Searching, SetStatus(ErrorStatus(lookup.error), Some(Red))]
      ensures url != "" && lookup.Opened? && lookup.streamError.Some? ==>
        && yt == Some(lookup.video) && streamOptions == map[]
        && effects == old(effects) + [Searching, SetStatus(ErrorStatus(lookup.streamError.value), Some(Red))]
      ensures url != "" && lookup.Opened? && lookup.streamError.None? ==>
        var v := lookup.video;
        var k := FailIndex(v.streams, AudioSize(v));
        var cs := Candidates(v.streams[..k], AudioSize(v));
        && yt == Some(v) && streamOptions == FirstStreams(cs)
        && (k < |v.streams| ==>
              effects == old(effects) + [Searching, SetStatus(ErrorStatus(MissingAudioText), Some(Red))])
        && (k == |v.streams| ==> effects == old(effects) + [Searching] + Loaded(Dedup(cs)))
    {
      if url == "" {
        return;
      }
      Emit(Searching);
      if lookup.BadUrl? {
        Emit(SetStatus(ErrorStatus(lookup.error), Some(Red)));
        return;
      }
      var v := lookup.video;
      yt := Some(v);
      streamOptions := map[];
      if lookup.streamError.Some? {
        Emit(SetStatus(ErrorStatus(lookup.streamError.value), Some(Red)));
        return;
      }
      var values, options, raised := BuildOptions(v.streams, AudioSize(v));
      streamOptions := options;
      if raised {
        Emit(SetStatus(ErrorStatus(MissingAudioText), Some(Red)));
        OptionsOffered(v, FailIndex(v.streams, AudioSize(v)));
        return;
      }
      ShowLabels(values);
      OptionsOffered(v, FailIndex(v.streams, AudioSize(v)));
    }

    /**
      The end of the fetch handler: the menu gets the labels, and the first is
      selected, the button enabled and success shown, unless there is no first
      label, which raises.
     */
    method ShowLabels(values: seq<string>)
      modifies this
      ensures effects == old(effects) + Loaded(values)
      ensures yt == old(yt) && streamOptions == old(streamOptions)
    {
      Emit(SetMenu(values));
      if values == [] {
        Emit(SetStatus(ErrorStatus(IndexErrorText), Some(Red)));
        return;
      }
      Emit(Select(values[0]));
      Emit(SetButton(true));
      Emit(SetStatus(LoadedText, Some(Green)));
    }

    /**
      The download handler, for the outcomes of the steps that can raise. A
      selection that is not a label of the map does nothing. Otherwise the
      handler does what `DownloadTrace` says for the selected stream.
     */
    method DownloadLogic(o: Outcomes)
      requires Valid()
      modifies this
      ensures Valid()
      ensures yt == old(yt) && streamOptions == old(streamOptions)
      ensures old(Widgets().selection) !in old(streamOptions) ==> effects == old(effects)
      ensures old(Widgets().selection) in old(streamOptions) ==>
        var s := old(streamOptions)[old(Widgets().selection)];
        && yt.Some? && HasResolution(s)
        && effects == old(effects) + DownloadTrace(s, AudioItag(yt.value), yt.value.title, o)
        && Widgets() == Replay(old(Widgets()), DownloadTrace(s, AudioItag(yt.value), yt.value.title, o))
    {
      var selection := Widgets().selection;
      if selection !in streamOptions {
        return;
      }
      var s := streamOptions[selection];
      var v := yt.value;
      assert Offered(v, selection, s);
      ghost var e0 := effects;
      Emit(SetButton(false));
      ghost var e1 := effects;
      var out := OutputName(v.title, s.resolution.value);
      var failure: Option<string>;
      if s.isAdaptive {
        failure := RunAdaptive(s, AudioItag(v), out, o);
      } else {
        failure := RunProgressive(s, AudioItag(v), out, o);
      }
      ghost var e2 := effects;
      assert e2 == e1 + Attempted(s, AudioItag(v), out, o);
      if failure.None? {
        Emit(SetProgress(1.0));
        Emit(SetStatus(SavedStatus(out), Some(Green)));
      } else {
        Emit(SetStatus(DownloadErrorStatus(failure.value), Some(Red)));
      }
      assert effects == e2 + Conclusion(s, out, o);
      Emit(SetButton(true));
      ghost var attempted, conclusion := Attempted(s, AudioItag(v), out, o), Conclusion(s, out, o);
      ghost var trace := DownloadTrace(s, AudioItag(v), v.title, o);
      assert trace == [SetButton(false)] + attempted + conclusion + [SetButton(true)];
      assert effects == e0 + [SetButton(false)] + attempted + conclusion + [SetButton(true)];
      Regroup(e0, [SetButton(false)], attempted, conclusion, [SetButton(true)]);
      ReplayConcat(Initial, e0, trace);
    }

    /** One step of the download: the status text, the bar's fraction, then the step that reaches outside. */
    method Step(text: string, tone: Option<Tone>, fraction: real, e: Effect)
      modifies this
      ensures effects == old(effects) + [SetStatus(text, tone), SetProgress(fraction), e]
      ensures yt == old(yt) && streamOptions == old(streamOptions)
    {
      Emit(SetStatus(text, tone));
      Emit(SetProgress(fraction));
      Emit(e);
    }

    /**
      The try block of the download handler for a stream without audio: the
      video track, the audio track and the merge command, then the removal of
      the two temporary files, each step after the one before it ended
      normally. The result is the message of the step that raised, if any.
     */
    method RunAdaptive(s: Stream, audioItag: nat, out: string, o: Outcomes) returns (failure: Option<string>)
      requires s.isAdaptive
      modifies this
      ensures effects == old(effects) + Attempted(s, audioItag, out, o)
      ensures failure.None? <==> Succeeds(s, o)
      ensures failure.Some? ==> !Succeeds(s, o) && failure.value == FailureMessage(s, o)
      ensures yt == old(yt) && streamOptions == old(streamOptions)
    {
      ghost var e1, st := effects, Stages(s, audioItag, out);
      FlattenFive(e1, st);
      Step(VideoTrackText, Some(White), 0.2, Download(s.itag, VideoTemp));
      if o.video.Raised? {
        RaisedAt(s, audioItag, out, o, 0);
        return Some(o.video.message);
      }
      Step(AudioTrackText, None, 0.5, Download(audioItag, AudioTemp));
      if o.audio.Raised? {
        RaisedAt(s, audioItag, out, o, 1);
        return Some(o.audio.message);
      }
      Step(MergingText, None, 0.8, RunCommand(MergeCommand(out)));
      if o.merge.Raised? {
        RaisedAt(s, audioItag, out, o, 2);
        return Some(o.merge.message);
      }
      Emit(RemoveFile(VideoTemp));
      if o.removeVideo.Raised? {
        RaisedAt(s, audioItag, out, o, 3);
        return Some(o.removeVideo.message);
      }
      Emit(RemoveFile(AudioTemp));
      if o.removeAudio.Raised? {
        RaisedAt(s, audioItag, out, o, 4);
        return Some(o.removeAudio.message);
      }
      NoneRaised(s, audioItag, out, o);
      assert st[..5] == st;
      return None;
    }

    /**
      The try block of the download handler for a stream that carries its own
      audio: one download straight into the output file.
     */
    method RunProgressive(s: Stream, audioItag: nat, out: string, o: Outcomes) returns (failure: Option<string>)
      requires !s.isAdaptive
      modifies this
      ensures effects == old(effects) + Attempted(s, audioItag, out, o)
      ensures failure.None? <==> Succeeds(s, o)
      ensures failure.Some? ==> !Succeeds(s, o) && failure.value == FailureMessage(s, o)
      ensures yt == old(yt) && streamOptions == old(streamOptions)
    {
      ghost var e1, st := effects, Stages(s, audioItag, out);
      FlattenOne(e1, st);
      Step(StandardText, None, 0.5, Download(s.itag, out));
      if o.video.Raised? {
        RaisedAt(s, audioItag, out, o, 0);
        return Some(o.video.message);
      }
      NoneRaised(s, audioItag, out, o);
      assert st[..1] == st;
      return None;
    }
  }

  /** Appending four logs one after the other is appending their concatenation. */
  lemma Regroup(t: seq<Effect>, a: seq<Effect>, b: seq<Effect>, c: seq<Effect>, d: seq<Effect>)
    ensures t + a + b + c + d == t + (a + b + c + d)
  {
  }
}
