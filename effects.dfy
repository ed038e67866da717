/**
  What the two handlers do to the window and to the outside world, written as
  a log of effects, and the widget state a log of effects produces.
 */
module Effects {
  import opened Wrappers

  /** The text colours the status label is given. */
  datatype Tone = Gray | Yellow | Green | Red | White

  /**
    One thing a handler does, in the order it does it. The first five change a
    widget; the last three reach outside the window (a stream download into a
    file, an external command, a file removal). A status update that keeps the
    current colour carries `None`.
   */
  datatype Effect =
    | SetButton(enabled: bool)
    | SetStatus(text: string, tone: Option<Tone>)
    | SetProgress(fraction: real)
    | SetMenu(values: seq<string>)
    | Select(choice: string)
    | Download(itag: nat, path: string)
    | RunCommand(argv: seq<string>)
    | RemoveFile(path: string)

  /** Whether the effect reaches outside the window. */
  predicate IsExternal(e: Effect) {
    e.Download? || e.RunCommand? || e.RemoveFile?
  }

  /**
    The state of the widgets the handlers touch: the choices of the option
    menu and its current value, whether the download button is enabled, the
    status text and its colour, and the fraction shown by the progress bar.
   */
  datatype Display = Display(
    menu: seq<string>,
    selection: string,
    buttonEnabled: bool,
    status: string,
    tone: Tone,
    progress: real)

  const Placeholder := "No formats loaded"
  const ReadyText := "Ready"

  /** The widgets as the window builds them: one placeholder choice, a disabled button, an empty bar. */
  const Initial := Display([Placeholder], Placeholder, false, ReadyText, Gray, 0.0)

  /** The widget state after one effect: each effect changes only the widgets it names, and a status update without a colour keeps the colour. */
  function Apply(d: Display, e: Effect): (r: Display)
    ensures !e.SetMenu? && !e.Select? ==> r.menu == d.menu && r.selection == d.selection
    ensures !e.SetProgress? ==> r.progress == d.progress
    ensures !e.SetButton? ==> r.buttonEnabled == d.buttonEnabled
    ensures !e.SetStatus? ==> r.status == d.status && r.tone == d.tone
    ensures e.SetStatus? && e.tone.None? ==> r.tone == d.tone
  {
    match e
    case SetButton(b) => d.(buttonEnabled := b)
    case SetStatus(t, c) => d.(status := t, tone := if c.Some? then c.value else d.tone)
    case SetProgress(f) => d.(progress := f)
    case SetMenu(v) => d.(menu := v)
    case Select(x) => d.(selection := x)
    case Download(_, _) => d
    case RunCommand(_) => d
    case RemoveFile(_) => d
  }

  /** The widget state after a log of effects, applied in order. */
  function Replay(d: Display, t: seq<Effect>): Display
    decreases |t|
  {
    if t == [] then d else Apply(Replay(d, t[..|t| - 1]), t[|t| - 1])
  }

  /** Replaying two logs one after the other is replaying their concatenation. */
  lemma {:induction false} ReplayConcat(d: Display, a: seq<Effect>, b: seq<Effect>)
    ensures Replay(d, a + b) == Replay(Replay(d, a), b)
    decreases |b|
  {
    if b == [] {
      assert a + b == a;
    } else {
      assert (a + b)[..|a + b| - 1] == a + b[..|b| - 1];
      ReplayConcat(d, a, b[..|b| - 1]);
    }
  }

  /** Effects that do not touch a widget leave the widget state as it was. */
  lemma {:induction false} ReplayUntouched(d: Display, t: seq<Effect>)
    requires forall i :: 0 <= i < |t| ==> IsExternal(t[i])
    ensures Replay(d, t) == d
    decreases |t|
  {
    if t != [] {
      ReplayUntouched(d, t[..|t| - 1]);
    }
  }

  /** The effects of a log that reach outside the window, in order. */
  function External(t: seq<Effect>): seq<Effect>
    decreases |t|
  {
    if t == [] then []
    else
      var init := External(t[..|t| - 1]);
      if IsExternal(t[|t| - 1]) then init + [t[|t| - 1]] else init
  }

  /** The fractions the progress bar is set to, in order. */
  function Progress(t: seq<Effect>): seq<real>
    decreases |t|
  {
    if t == [] then []
    else
      var init := Progress(t[..|t| - 1]);
      if t[|t| - 1].SetProgress? then init + [t[|t| - 1].fraction] else init
  }

  /** The states the download button is set to, in order. */
  function ButtonStates(t: seq<Effect>): seq<bool>
    decreases |t|
  {
    if t == [] then []
    else
      var init := ButtonStates(t[..|t| - 1]);
      if t[|t| - 1].SetButton? then init + [t[|t| - 1].enabled] else init
  }

  /** The external steps of a concatenation are those of its parts. */
  lemma {:induction false} ExternalConcat(a: seq<Effect>, b: seq<Effect>)
    ensures External(a + b) == External(a) + External(b)
    decreases |b|
  {
    if b == [] {
      assert a + b == a;
    } else {
      var b' := b[..|b| - 1];
      assert (a + b)[..|a + b| - 1] == a + b';
      assert (a + b)[|a + b| - 1] == b[|b| - 1];
      ExternalConcat(a, b');
    }
  }

  /** The fractions of a concatenation are those of its parts. */
  lemma {:induction false} ProgressConcat(a: seq<Effect>, b: seq<Effect>)
    ensures Progress(a + b) == Progress(a) + Progress(b)
    decreases |b|
  {
    if b == [] {
      assert a + b == a;
    } else {
      var b' := b[..|b| - 1];
      assert (a + b)[..|a + b| - 1] == a + b';
      assert (a + b)[|a + b| - 1] == b[|b| - 1];
      ProgressConcat(a, b');
    }
  }

  /** The button states of a concatenation are those of its parts. */
  lemma {:induction false} ButtonStatesConcat(a: seq<Effect>, b: seq<Effect>)
    ensures ButtonStates(a + b) == ButtonStates(a) + ButtonStates(b)
    decreases |b|
  {
    if b == [] {
      assert a + b == a;
    } else {
      var b' := b[..|b| - 1];
      assert (a + b)[..|a + b| - 1] == a + b';
      assert (a + b)[|a + b| - 1] == b[|b| - 1];
      ButtonStatesConcat(a, b');
    }
  }

  /** Each projection of a concatenation is the concatenation of the projections. */
  lemma ProjectionsConcat(a: seq<Effect>, b: seq<Effect>)
    ensures External(a + b) == External(a) + External(b)
    ensures Progress(a + b) == Progress(a) + Progress(b)
    ensures ButtonStates(a + b) == ButtonStates(a) + ButtonStates(b)
  {
    ExternalConcat(a, b);
    ProgressConcat(a, b);
    ButtonStatesConcat(a, b);
  }

  /** The three projections of a one-effect log. */
  lemma ProjectionsUnit(e: Effect)
    ensures External([e]) == if IsExternal(e) then [e] else []
    ensures Progress([e]) == if e.SetProgress? then [e.fraction] else []
    ensures ButtonStates([e]) == if e.SetButton? then [e.enabled] else []
  {
    assert [e][..0] == [];
  }

  /**
    The projections of a log made of one button update, two middle parts, and
    another button update.
   */
  lemma ProjectionsBracket(first: bool, a: seq<Effect>, c: seq<Effect>, last: bool)
    ensures var t := [SetButton(first)] + a + c + [SetButton(last)];
      && External(t) == External(a) + External(c)
      && Progress(t) == Progress(a) + Progress(c)
      && ButtonStates(t) == [first] + ButtonStates(a) + ButtonStates(c) + [last]
  {
    var head := [SetButton(first)] + a;
    var body := head + c;
    ProjectionsConcat([SetButton(first)], a);
    ProjectionsConcat(head, c);
    ProjectionsConcat(body, [SetButton(last)]);
    ProjectionsUnit(SetButton(first));
    ProjectionsUnit(SetButton(last));
    assert External(head) == External(a) && Progress(head) == Progress(a);
    assert External(body + [SetButton(last)]) == External(body);
    assert Progress(body + [SetButton(last)]) == Progress(body);
  }

  /**
    Replaying a log made of one button update, two middle parts, and another
    button update: the first update only matters to the middle parts, the
    last one decides the button.
   */
  lemma ReplayBracket(d: Display, first: bool, a: seq<Effect>, c: seq<Effect>, last: bool)
    ensures Replay(d, [SetButton(first)] + a + c + [SetButton(last)]) ==
      Replay(Replay(d.(buttonEnabled := first), a), c).(buttonEnabled := last)
  {
    var head := [SetButton(first)] + a;
    ReplayConcat(d, head + c, [SetButton(last)]);
    ReplayConcat(d, head, c);
    ReplayConcat(d, [SetButton(first)], a);
    assert [SetButton(first)][..0] == [] && [SetButton(last)][..0] == [];
  }

  /** No effect of the log changes the choices or the current value of the option menu. */
  predicate KeepsMenu(t: seq<Effect>) {
    forall i :: 0 <= i < |t| ==> !t[i].SetMenu? && !t[i].Select?
  }

  lemma KeepsMenuConcat(a: seq<Effect>, b: seq<Effect>)
    requires KeepsMenu(a) && KeepsMenu(b)
    ensures KeepsMenu(a + b)
  {
    assert forall i :: |a| <= i < |a + b| ==> (a + b)[i] == b[i - |a|];
  }

  /**
    After a log, the bar shows the last fraction it was set to, the button the
    last state it was set to, and the menu is as it was when the log keeps it.
   */
  lemma {:induction false} ReplayLast(d: Display, t: seq<Effect>)
    ensures var p := Progress(t);
      Replay(d, t).progress == if p == [] then d.progress else p[|p| - 1]
    ensures var b := ButtonStates(t);
      Replay(d, t).buttonEnabled == if b == [] then d.buttonEnabled else b[|b| - 1]
    ensures KeepsMenu(t) ==> Replay(d, t).menu == d.menu && Replay(d, t).selection == d.selection
    decreases |t|
  {
    if t != [] {
      ReplayLast(d, t[..|t| - 1]);
    }
  }

  /** A strictly increasing sequence of fractions. */
  predicate Increasing(r: seq<real>) {
    forall i, j :: 0 <= i < j < |r| ==> r[i] < r[j]
  }

  /** A prefix of an increasing sequence increases. */
  lemma IncreasingPrefix(r: seq<real>, n: nat)
    requires Increasing(r) && n <= |r|
    ensures Increasing(r[..n])
  {
    assert forall i :: 0 <= i < n ==> r[..n][i] == r[i];
  }

  /** An increasing sequence stays increasing when a value above all of it is appended. */
  lemma IncreasingSnoc(r: seq<real>, x: real)
    requires Increasing(r) && forall i :: 0 <= i < |r| ==> r[i] < x
    ensures Increasing(r + [x])
  {
    assert forall i :: 0 <= i < |r| ==> (r + [x])[i] == r[i];
  }
}
