/**
  The format list built when a URL is fetched: each stream of the
  library's query (already ordered by resolution, highest first) that has
  a resolution yields a display label; the list keeps each label once, in
  order of first occurrence, and the option map sends each label to the
  first stream that produced it.
 */
module Formats {
  import opened Wrappers

  /** One stream record of the query. Sizes are in tenths of a megabyte. */
  datatype Stream = Stream(itag: nat, resolution: Option<string>, isAdaptive: bool, sizeTenths: nat)

  /** The truth test the loop applies to a resolution: present and not empty. */
  predicate HasResolution(s: Stream) {
    s.resolution.Some? && s.resolution.value != ""
  }

  datatype Category = Merged | Direct

  function CategoryText(c: Category): string {
    match c
    case Merged => "High Quality (Merged)"
    case Direct => "Standard (Direct)"
  }

  /** Adaptive streams need their audio merged in; progressive ones carry it. */
  function CategoryOf(s: Stream): (c: Category)
    ensures c == Merged <==> s.isAdaptive
  {
    if s.isAdaptive then Merged else Direct
  }

  /**
    The loop raises at this stream: it has a resolution and is adaptive, so the
    size of the audio-only stream is read, but the query has no audio-only stream.
   */
  predicate Raises(s: Stream, audio: Option<nat>) {
    HasResolution(s) && s.isAdaptive && audio.None?
  }

  /** Whether the loop labels the stream: it has a resolution and the loop does not raise at it. */
  predicate Produces(s: Stream, audio: Option<nat>) {
    HasResolution(s) && !Raises(s, audio)
  }

  /** The estimated download size: the audio-only size is added for adaptive streams. */
  function TotalSize(s: Stream, audio: Option<nat>): (r: nat)
    requires s.isAdaptive ==> audio.Some?
    ensures s.sizeTenths <= r
    ensures r == s.sizeTenths <==> !s.isAdaptive || audio.value == 0
  {
    if s.isAdaptive then s.sizeTenths + audio.value else s.sizeTenths
  }

  function Digit(d: nat): (c: char)
    requires d < 10
    ensures '0' <= c <= '9'
  {
    (48 + d) as char
  }

  /** The decimal numeral of `n`, without leading zeros. */
  function Decimal(n: nat): (r: string)
    ensures 1 <= |r|
    ensures n < 10 <==> |r| == 1
    ensures forall i :: 0 <= i < |r| ==> '0' <= r[i] <= '9'
    ensures 10 <= n ==> r[0] != '0'
  {
    if n < 10 then [Digit(n)] else Decimal(n / 10) + [Digit(n % 10)]
  }

  /** A size in tenths of a MB written with one decimal place, as the fixed-point format with one decimal shows it. */
  function Tenths(n: nat): (r: string)
    ensures 3 <= |r| && r[|r| - 2] == '.'
    ensures forall i :: 0 <= i < |r| && i != |r| - 2 ==> '0' <= r[i] <= '9'
  {
    Decimal(n / 10) + "." + [Digit(n % 10)]
  }

  /** Resolution, category and size in MB with one decimal place, separated by bars. */
  function Label(resolution: string, c: Category, size: nat): (r: string)
    ensures |resolution| < |r| && r[..|resolution|] == resolution
    ensures 3 <= |r| && r[|r| - 3..] == " MB"
  {
    resolution + LabelTail(c, size)
  }

  /** What follows the resolution in a label. */
  function LabelTail(c: Category, size: nat): (t: string)
    ensures |t| >= 2 && t[..2] == " |"
  {
    " | " + CategoryText(c) + " | " + Tenths(size) + " MB"
  }

  /** The label the loop computes for a stream it does not skip. */
  function LabelOf(s: Stream, audio: Option<nat>): string
    requires Produces(s, audio)
  {
    Label(s.resolution.value, CategoryOf(s), TotalSize(s, audio))
  }

  lemma {:induction false} DecimalInjective(a: nat, b: nat)
    requires Decimal(a) == Decimal(b)
    ensures a == b
  {
    if a >= 10 && b >= 10 {
      var da, db := Decimal(a), Decimal(b);
      assert da == Decimal(a / 10) + [Digit(a % 10)];
      assert db == Decimal(b / 10) + [Digit(b % 10)];
      assert Digit(a % 10) == da[|da| - 1] == db[|db| - 1] == Digit(b % 10);
      assert Decimal(a / 10) == da[..|da| - 1] == db[..|db| - 1] == Decimal(b / 10);
      DecimalInjective(a / 10, b / 10);
    } else if a < 10 && b < 10 {
      assert Decimal(a)[0] == Digit(a) && Decimal(b)[0] == Digit(b);
    }
  }

  lemma TenthsInjective(a: nat, b: nat)
    requires Tenths(a) == Tenths(b)
    ensures a == b
  {
    var ta, tb := Tenths(a), Tenths(b);
    assert ta[|ta| - 1] == Digit(a % 10) && tb[|tb| - 1] == Digit(b % 10);
    assert ta[..|ta| - 2] == Decimal(a / 10) && tb[..|tb| - 2] == Decimal(b / 10);
    DecimalInjective(a / 10, b / 10);
  }

  /** The resolution text contains no `|`, the separator of the label's fields. */
  predicate NoBar(s: string) {
    forall i :: 0 <= i < |s| ==> s[i] != '|'
  }

  /** In a resolution followed by `" |"`, the first `|` comes right after the resolution and its space. */
  lemma FirstBar(r: string, t: string)
    requires NoBar(r) && |t| >= 2 && t[..2] == " |"
    ensures (r + t)[|r| + 1] == '|'
    ensures forall i :: 0 <= i <= |r| ==> (r + t)[i] != '|'
  {
    assert t[0] == t[..2][0] && t[1] == t[..2][1];
  }

  /** Two texts that each begin a label with a `|`-free resolution begin with the same resolution. */
  lemma SplitAtBar(r1: string, t1: string, r2: string, t2: string)
    requires NoBar(r1) && NoBar(r2)
    requires |t1| >= 2 && |t2| >= 2 && t1[..2] == " |" && t2[..2] == " |"
    requires r1 + t1 == r2 + t2
    ensures r1 == r2 && t1 == t2
  {
    FirstBar(r1, t1);
    FirstBar(r2, t2);
    var l := r1 + t1;
    assert |r1| == |r2|;
    assert r1 == l[..|r1|] == r2;
    assert t1 == l[|r1|..] == t2;
  }

  /** Texts between the same prefix and the same suffix are equal when the whole texts are. */
  lemma Between(p: string, x: string, y: string, q: string)
    requires p + x + q == p + y + q
    ensures x == y
  {
    var l := p + x + q;
    assert |x| == |y|;
    assert x == l[|p|..|p| + |x|] == y;
  }

  lemma LabelTailInjective(c1: Category, n1: nat, c2: Category, n2: nat)
    requires LabelTail(c1, n1) == LabelTail(c2, n2)
    ensures c1 == c2 && n1 == n2
  {
    var t1, t2 := LabelTail(c1, n1), LabelTail(c2, n2);
    assert t1[3] == CategoryText(c1)[0] && t2[3] == CategoryText(c2)[0];
    assert c1 == c2;
    Between(" | " + CategoryText(c1) + " | ", Tenths(n1), Tenths(n2), " MB");
    TenthsInjective(n1, n2);
  }

  /** The label determines resolution, category and size when the resolution has no `|`. */
  lemma LabelInjective(r1: string, c1: Category, n1: nat, r2: string, c2: Category, n2: nat)
    requires NoBar(r1) && NoBar(r2)
    requires Label(r1, c1, n1) == Label(r2, c2, n2)
    ensures r1 == r2 && c1 == c2 && n1 == n2
  {
    SplitAtBar(r1, LabelTail(c1, n1), r2, LabelTail(c2, n2));
    LabelTailInjective(c1, n1, c2, n2);
  }

  /**
    Two streams collapse into one choice exactly when they have the same
    resolution, the same category and the same total size.
   */
  lemma SameLabel(s1: Stream, s2: Stream, audio: Option<nat>)
    requires Produces(s1, audio) && NoBar(s1.resolution.value)
    requires Produces(s2, audio) && NoBar(s2.resolution.value)
    ensures LabelOf(s1, audio) == LabelOf(s2, audio) <==>
      s1.resolution == s2.resolution && s1.isAdaptive == s2.isAdaptive && TotalSize(s1, audio) == TotalSize(s2, audio)
  {
    if LabelOf(s1, audio) == LabelOf(s2, audio) {
      LabelInjective(s1.resolution.value, CategoryOf(s1), TotalSize(s1, audio),
                     s2.resolution.value, CategoryOf(s2), TotalSize(s2, audio));
    }
  }

  /** Index of the first stream that makes the loop raise, or `|ss|` when none does. */
  function FailIndex(ss: seq<Stream>, audio: Option<nat>): (k: nat)
    ensures k <= |ss|
    ensures k < |ss| ==> Raises(ss[k], audio)
    ensures forall j :: 0 <= j < k ==> !Raises(ss[j], audio)
  {
    if ss == [] then 0
    else if Raises(ss[0], audio) then 0
    else
      var k := 1 + FailIndex(ss[1..], audio);
      assert forall j :: 1 <= j < k ==> ss[j] == ss[1..][j - 1];
      k
  }

  /** A label and the stream that produced it. */
  type Candidate = (string, Stream)

  /**
    The (label, stream) pairs of the streams that produce a label, in query
    order. A stream at which the loop raises produces none; since the loop
    stops at the first such stream, the model applies this only to the
    streams before it.
   */
  function Candidates(ss: seq<Stream>, audio: Option<nat>): (cs: seq<Candidate>)
    ensures |cs| <= |ss|
    ensures forall j :: 0 <= j < |cs| ==>
      && Produces(cs[j].1, audio)
      && cs[j].1 in ss && cs[j].0 == LabelOf(cs[j].1, audio)
  {
    if ss == [] then []
    else
      var init := Candidates(ss[..|ss| - 1], audio);
      var s := ss[|ss| - 1];
      assert forall x :: x in ss[..|ss| - 1] ==> x in ss;
      if Produces(s, audio) then init + [(LabelOf(s, audio), s)] else init
  }

  lemma CandidatesStep(ss: seq<Stream>, audio: Option<nat>, i: nat)
    requires i < |ss|
    ensures Candidates(ss[..i + 1], audio) ==
      Candidates(ss[..i], audio) + if Produces(ss[i], audio) then [(LabelOf(ss[i], audio), ss[i])] else []
  {
    assert ss[..i + 1][..i] == ss[..i];
  }

  /** The pairs of a concatenation are the pairs of each part, in order. */
  lemma {:induction false} CandidatesAppend(a: seq<Stream>, b: seq<Stream>, audio: Option<nat>)
    ensures Candidates(a + b, audio) == Candidates(a, audio) + Candidates(b, audio)
    decreases |b|
  {
    if b == [] {
      assert a + b == a;
    } else {
      var b' := b[..|b| - 1];
      assert (a + b)[..|a + b| - 1] == a + b';
      assert (a + b)[|a + b| - 1] == b[|b| - 1];
      CandidatesAppend(a, b', audio);
    }
  }

  /** A stream without a resolution contributes no label and no map entry, wherever it sits. */
  lemma UnresolvedContributeNothing(a: seq<Stream>, s: Stream, b: seq<Stream>, audio: Option<nat>)
    requires !HasResolution(s)
    ensures Candidates(a + [s] + b, audio) == Candidates(a + b, audio)
  {
    CandidatesAppend(a, b, audio);
    CandidatesAppend(a + [s], b, audio);
    CandidatesAppend(a, [s], audio);
    assert [s][..0] == [];
  }

  /** Every stream that produces a label has it among the candidates. */
  lemma CandidatesCover(ss: seq<Stream>, audio: Option<nat>, i: nat)
    requires i < |ss| && Produces(ss[i], audio)
    ensures LabelOf(ss[i], audio) in Labels(Candidates(ss, audio))
  {
    var upTo, rest := ss[..i + 1], ss[i + 1..];
    assert ss == upTo + rest;
    CandidatesAppend(upTo, rest, audio);
    CandidatesStep(ss, audio, i);
    var before := Candidates(ss[..i], audio);
    var cs := Candidates(ss, audio);
    assert cs == before + [(LabelOf(ss[i], audio), ss[i])] + Candidates(rest, audio);
    assert cs[|before|].0 == LabelOf(ss[i], audio);
    InLabels(cs, |before|);
  }

  /** The set of labels among some pairs. */
  function Labels(cs: seq<Candidate>): set<string> {
    set j | 0 <= j < |cs| :: cs[j].0
  }

  lemma LabelsSnoc(cs: seq<Candidate>, p: Candidate)
    ensures Labels(cs + [p]) == Labels(cs) + {p.0}
  {
    assert forall j :: 0 <= j < |cs| ==> (cs + [p])[j] == cs[j];
    assert (cs + [p])[|cs|] == p;
  }

  lemma InLabels(cs: seq<Candidate>, j: nat)
    requires j < |cs|
    ensures cs[j].0 in Labels(cs)
  {
  }

  /** Index of the first pair labelled `l`, or `|cs|` when there is none. */
  function FirstIndex(cs: seq<Candidate>, l: string): (k: nat)
    ensures k <= |cs|
    ensures k < |cs| ==> cs[k].0 == l
    ensures forall j :: 0 <= j < k ==> cs[j].0 != l
  {
    if cs == [] then 0
    else if cs[0].0 == l then 0
    else 1 + FirstIndex(cs[1..], l)
  }

  lemma FirstIndexFound(cs: seq<Candidate>, l: string)
    requires l in Labels(cs)
    ensures FirstIndex(cs, l) < |cs|
  {
    var j :| 0 <= j < |cs| && cs[j].0 == l;
  }

  lemma FirstIndexAppend(cs: seq<Candidate>, p: Candidate, l: string)
    ensures FirstIndex(cs + [p], l) ==
      if l in Labels(cs) then FirstIndex(cs, l) else if p.0 == l then |cs| else |cs| + 1
  {
    var k, k' := FirstIndex(cs, l), FirstIndex(cs + [p], l);
    assert forall j :: 0 <= j < |cs| ==> (cs + [p])[j] == cs[j];
    if l in Labels(cs) {
      FirstIndexFound(cs, l);
    } else {
      if p.0 == l {
        assert (cs + [p])[|cs|].0 == l;
      }
    }
  }

  /** Each label mapped to the first stream that produced it. */
  function FirstStreams(cs: seq<Candidate>): (m: map<string, Stream>)
    ensures m.Keys == Labels(cs)
    ensures forall l :: l in m ==> FirstIndex(cs, l) < |cs| && m[l] == cs[FirstIndex(cs, l)].1
  {
    map l | l in Labels(cs) :: (FirstIndexFound(cs, l); cs[FirstIndex(cs, l)].1)
  }

  lemma FirstStreamsAppend(cs: seq<Candidate>, p: Candidate)
    ensures FirstStreams(cs + [p]) ==
      if p.0 in Labels(cs) then FirstStreams(cs) else FirstStreams(cs)[p.0 := p.1]
  {
    var m, m' := FirstStreams(cs), FirstStreams(cs + [p]);
    assert Labels(cs + [p]) == Labels(cs) + {p.0} by {
      assert forall j :: 0 <= j < |cs| ==> (cs + [p])[j] == cs[j];
      assert (cs + [p])[|cs|] == p;
    }
    forall l | l in m'
      ensures m'[l] == (if p.0 in Labels(cs) then m else m[p.0 := p.1])[l]
    {
      FirstIndexAppend(cs, p, l);
      if l in Labels(cs) {
        FirstIndexFound(cs, l);
        assert (cs + [p])[FirstIndex(cs, l)] == cs[FirstIndex(cs, l)];
      }
    }
  }

  /**
    `values` lists every label of the pairs, each once, in the order in which
    the labels first occur.
   */
  ghost predicate InFirstOccurrenceOrder(cs: seq<Candidate>, values: seq<string>) {
    && Ranked(cs, values)
    && (forall a :: 0 <= a < |values| ==> values[a] in Labels(cs))
    && (forall l :: l in Labels(cs) ==> l in values)
  }

  predicate NoDuplicates(values: seq<string>) {
    forall a, b :: 0 <= a < b < |values| ==> values[a] != values[b]
  }

  lemma OrderedHasNoDuplicates(cs: seq<Candidate>, values: seq<string>)
    requires InFirstOccurrenceOrder(cs, values)
    ensures NoDuplicates(values)
  {
  }

  lemma OrderAppend(cs: seq<Candidate>, values: seq<string>, p: Candidate)
    requires InFirstOccurrenceOrder(cs, values)
    ensures p.0 in values <==> p.0 in Labels(cs)
    ensures InFirstOccurrenceOrder(cs + [p], if p.0 in values then values else values + [p.0])
  {
    var values' := if p.0 in values then values else values + [p.0];
    RankedAppend(cs, values, p);
    LabelsSnoc(cs, p);
    assert forall a :: 0 <= a < |values'| ==> values'[a] in Labels(cs + [p]);
  }

  /** Appending a new label after the others keeps the ranking by first occurrence. */
  lemma RankedAppend(cs: seq<Candidate>, values: seq<string>, p: Candidate)
    requires InFirstOccurrenceOrder(cs, values)
    ensures Ranked(cs + [p], if p.0 in values then values else values + [p.0])
  {
    var cs' := cs + [p];
    var values' := if p.0 in values then values else values + [p.0];
    forall l
      ensures FirstIndex(cs', l) == if l in Labels(cs) then FirstIndex(cs, l) else if p.0 == l then |cs| else |cs| + 1
    {
      FirstIndexAppend(cs, p, l);
    }
    forall a | 0 <= a < |values|
      ensures FirstIndex(cs, values[a]) < |cs|
    {
      FirstIndexFound(cs, values[a]);
    }
  }

  /** Labels ranked by strictly increasing first index. */
  ghost predicate Ranked(cs: seq<Candidate>, v: seq<string>) {
    forall a, b :: 0 <= a < b < |v| ==> FirstIndex(cs, v[a]) < FirstIndex(cs, v[b])
  }

  lemma RankedTail(cs: seq<Candidate>, v: seq<string>, x: string)
    requires Ranked(cs, v) && v != []
    ensures Ranked(cs, v[1..])
    ensures x in v[1..] <==> x in v && x != v[0]
  {
    if x in v[1..] {
      var i :| 1 <= i < |v| && v[i] == x;
      assert FirstIndex(cs, v[0]) < FirstIndex(cs, v[i]);
    }
    if x in v && x != v[0] {
      var i :| 0 <= i < |v| && v[i] == x;
      assert v[1..][i - 1] == x;
    }
  }

  lemma RankedHead(cs: seq<Candidate>, v1: seq<string>, v2: seq<string>)
    requires Ranked(cs, v1) && Ranked(cs, v2) && v1 != [] && v2 != []
    requires v1[0] in v2 && v2[0] in v1
    ensures v1[0] == v2[0]
  {
    var i :| 0 <= i < |v1| && v1[i] == v2[0];
    var j :| 0 <= j < |v2| && v2[j] == v1[0];
    if i != 0 && j != 0 {
      assert false;
    }
  }

  lemma SameElementsEmpty(v1: seq<string>, v2: seq<string>)
    requires forall x :: x in v1 <==> x in v2
    ensures v1 == [] <==> v2 == []
  {
    if v1 != [] {
      assert v1[0] in v2;
    }
    if v2 != [] {
      assert v2[0] in v1;
    }
  }

  lemma {:induction false} RankedUnique(cs: seq<Candidate>, v1: seq<string>, v2: seq<string>)
    requires Ranked(cs, v1) && Ranked(cs, v2)
    requires forall x :: x in v1 <==> x in v2
    ensures v1 == v2
    decreases |v1|
  {
    SameElementsEmpty(v1, v2);
    if v1 != [] {
      RankedHead(cs, v1, v2);
      forall x
        ensures x in v1[1..] <==> x in v2[1..]
      {
        RankedTail(cs, v1, x);
        RankedTail(cs, v2, x);
      }
      RankedTail(cs, v1, v1[0]);
      RankedTail(cs, v2, v2[0]);
      RankedUnique(cs, v1[1..], v2[1..]);
      assert v1 == [v1[0]] + v1[1..] && v2 == [v2[0]] + v2[1..];
    }
  }

  /** The order and coverage requirements determine the list completely. */
  lemma FirstOccurrenceOrderUnique(cs: seq<Candidate>, v1: seq<string>, v2: seq<string>)
    requires InFirstOccurrenceOrder(cs, v1) && InFirstOccurrenceOrder(cs, v2)
    ensures v1 == v2
  {
    RankedUnique(cs, v1, v2);
  }

  /** The labels of the pairs, each kept at its first occurrence. */
  function Dedup(cs: seq<Candidate>): (r: seq<string>)
    ensures |r| <= |cs|
    ensures NoDuplicates(r)
    decreases |cs|
  {
    if cs == [] then []
    else
      var init := Dedup(cs[..|cs| - 1]);
      var l := cs[|cs| - 1].0;
      if l in init then init else init + [l]
  }

  lemma DedupSnoc(cs: seq<Candidate>, p: Candidate)
    ensures Dedup(cs + [p]) == if p.0 in Dedup(cs) then Dedup(cs) else Dedup(cs) + [p.0]
  {
    assert (cs + [p])[..|cs|] == cs;
  }

  /** Keeping first occurrences lists every label once, in first-occurrence order. */
  lemma {:induction false} DedupInOrder(cs: seq<Candidate>)
    ensures InFirstOccurrenceOrder(cs, Dedup(cs))
    decreases |cs|
  {
    if cs == [] {
      assert Labels(cs) == {};
    } else {
      var init := cs[..|cs| - 1];
      var p := cs[|cs| - 1];
      assert cs == init + [p];
      DedupInOrder(init);
      OrderAppend(init, Dedup(init), p);
      DedupSnoc(init, p);
    }
  }

  /** The only list of the labels in first-occurrence order is the one that keeps first occurrences. */
  lemma DedupUnique(cs: seq<Candidate>, values: seq<string>)
    requires InFirstOccurrenceOrder(cs, values)
    ensures values == Dedup(cs)
  {
    DedupInOrder(cs);
    FirstOccurrenceOrderUnique(cs, values, Dedup(cs));
  }

  /** The labels kept are exactly the keys of the map, and none repeats. */
  lemma DedupMatchesMap(cs: seq<Candidate>)
    ensures forall l :: l in Dedup(cs) <==> l in FirstStreams(cs)
    ensures NoDuplicates(Dedup(cs))
  {
    DedupInOrder(cs);
    OrderedHasNoDuplicates(cs, Dedup(cs));
  }

  /** A turn of the loop that adds nothing keeps its invariant. */
  lemma BuildSkip(ss: seq<Stream>, audio: Option<nat>, i: nat, values: seq<string>, options: map<string, Stream>)
    requires i < |ss| && !Raises(ss[i], audio)
    requires values == Dedup(Candidates(ss[..i], audio))
    requires options == FirstStreams(Candidates(ss[..i], audio))
    requires HasResolution(ss[i]) ==> LabelOf(ss[i], audio) in values
    ensures values == Dedup(Candidates(ss[..i + 1], audio))
    ensures options == FirstStreams(Candidates(ss[..i + 1], audio))
  {
    var cs := Candidates(ss[..i], audio);
    CandidatesStep(ss, audio, i);
    if HasResolution(ss[i]) {
      var p := (LabelOf(ss[i], audio), ss[i]);
      assert Candidates(ss[..i + 1], audio) == cs + [p];
      DedupSnoc(cs, p);
      DedupMatchesMap(cs);
      FirstStreamsAppend(cs, p);
      assert FirstStreams(cs + [p]) == FirstStreams(cs);
    } else {
      assert Candidates(ss[..i + 1], audio) == cs;
    }
  }

  /** A turn of the loop that meets a new label keeps its invariant. */
  lemma BuildAdd(ss: seq<Stream>, audio: Option<nat>, i: nat, values: seq<string>, options: map<string, Stream>)
    requires i < |ss| && Produces(ss[i], audio)
    requires values == Dedup(Candidates(ss[..i], audio))
    requires options == FirstStreams(Candidates(ss[..i], audio))
    requires LabelOf(ss[i], audio) !in values
    ensures values + [LabelOf(ss[i], audio)] == Dedup(Candidates(ss[..i + 1], audio))
    ensures options[LabelOf(ss[i], audio) := ss[i]] == FirstStreams(Candidates(ss[..i + 1], audio))
  {
    var cs := Candidates(ss[..i], audio);
    CandidatesStep(ss, audio, i);
    var p := (LabelOf(ss[i], audio), ss[i]);
    DedupSnoc(cs, p);
    DedupMatchesMap(cs);
    FirstStreamsAppend(cs, p);
  }

  lemma FailIndexBeyond(ss: seq<Stream>, audio: Option<nat>, i: nat)
    requires i <= FailIndex(ss, audio) && i < |ss| && !Raises(ss[i], audio)
    ensures i + 1 <= FailIndex(ss, audio)
  {
  }

  lemma FailIndexAt(ss: seq<Stream>, audio: Option<nat>, i: nat)
    requires i <= FailIndex(ss, audio) && i < |ss| && Raises(ss[i], audio)
    ensures FailIndex(ss, audio) == i
  {
  }

  /**
    The loop of the fetch handler. It stops with `raised` at the first stream
    that needs the missing audio-only stream; what it built until then is kept.
   */
  method BuildOptions(streams: seq<Stream>, audio: Option<nat>)
    returns (values: seq<string>, options: map<string, Stream>, raised: bool)
    ensures raised <==> FailIndex(streams, audio) < |streams|
    ensures values == Dedup(Candidates(streams[..FailIndex(streams, audio)], audio))
    ensures options == FirstStreams(Candidates(streams[..FailIndex(streams, audio)], audio))
  {
    values, options, raised := [], map[], false;
    var i := 0;
    ghost var cs: seq<Candidate> := [];
    assert streams[..0] == [];
    while i < |streams|
      invariant i <= FailIndex(streams, audio)
      invariant cs == Candidates(streams[..i], audio)
      invariant values == Dedup(cs)
      invariant options == FirstStreams(cs)
    {
      var s := streams[i];
      if HasResolution(s) && s.isAdaptive && audio.None? {
        raised := true;
        FailIndexAt(streams, audio, i);
        return;
      }
      FailIndexBeyond(streams, audio, i);
      if HasResolution(s) && LabelOf(s, audio) !in values {
        BuildAdd(streams, audio, i, values, options);
        var shown := LabelOf(s, audio);
        values := values + [shown];
        options := options[shown := s];
      } else {
        BuildSkip(streams, audio, i, values, options);
      }
      cs := Candidates(streams[..i + 1], audio);
      i := i + 1;
    }
    assert FailIndex(streams, audio) == i;
    assert streams[..i] == streams;
  }

  /** Every stream that produces a label is offered under it. */
  lemma EveryResolvedStreamListed(ss: seq<Stream>, audio: Option<nat>, i: nat)
    requires i < |ss| && Produces(ss[i], audio)
    ensures LabelOf(ss[i], audio) in Dedup(Candidates(ss, audio))
    ensures LabelOf(ss[i], audio) in FirstStreams(Candidates(ss, audio))
  {
    CandidatesCover(ss, audio, i);
    DedupMatchesMap(Candidates(ss, audio));
  }

  /** Sizes are written with one decimal place: 45.0 and 20.0 MB. */
  lemma ExampleSizes()
    ensures Tenths(450) == "45.0" && Tenths(200) == "20.0"
  {
    assert Decimal(4) == "4" && Decimal(45) == "45";
    assert Decimal(2) == "2" && Decimal(20) == "20";
  }

  /**
    A 1080p adaptive stream of 40.0 MB, with 5.0 MB of audio, followed by a
    480p progressive stream of 20.0 MB: both are offered, in query order, the
    first as merged with the audio size added, the second as direct.
   */
  lemma ExampleLabels()
    ensures var ss := [Stream(137, Some("1080p"), true, 400), Stream(18, Some("480p"), false, 200)];
      Candidates(ss, Some(50)) == [(Label("1080p", Merged, 450), ss[0]), (Label("480p", Direct, 200), ss[1])]
  {
    var ss := [Stream(137, Some("1080p"), true, 400), Stream(18, Some("480p"), false, 200)];
    assert ss[..1][..0] == [];
    assert Candidates(ss[..1], Some(50)) == [(LabelOf(ss[0], Some(50)), ss[0])];
    assert ss[..1] == ss[..|ss| - 1];
  }
}
