/**
  Pure string helpers of the downloader: Python's `s[:n]` slice, the
  filename filter applied to video titles, the output-file name and the
  status-bar messages.
 */
module Text {

  /** The nine characters the title filter deletes: backslash, slash, star, question mark, colon, double quote, less, greater and bar. */
  const Illegal: set<char> := {'\\', '/', '*', '?', ':', '"', '<', '>', '|'}

  predicate IsIllegal(c: char) {
    c in Illegal
  }

  /** No character of `s` is one the filter deletes. */
  predicate IsClean(s: string) {
    forall i :: 0 <= i < |s| ==> !IsIllegal(s[i])
  }

  /** Python's slice `s[:n]` for a non-negative `n`. */
  function Prefix(s: string, n: nat): (r: string)
    ensures r <= s
    ensures |r| == if |s| <= n then |s| else n
  {
    if |s| <= n then s else s[..n]
  }

  /** The title filter (a regular-expression substitution of the character class by nothing): every illegal character is deleted. */
  function Sanitize(s: string): (r: string)
    ensures IsClean(r)
    ensures |r| <= |s|
  {
    if s == [] then []
    else if IsIllegal(s[0]) then Sanitize(s[1..])
    else [s[0]] + Sanitize(s[1..])
  }

  /** A title with nothing to delete comes back unchanged. */
  lemma {:induction false} SanitizeKeepsClean(s: string)
    requires IsClean(s)
    ensures Sanitize(s) == s
  {
    if s != [] {
      SanitizeKeepsClean(s[1..]);
    }
  }

  /** Sanitising twice gives the same result as sanitising once. */
  lemma {:induction false} SanitizeIdempotent(s: string)
    ensures Sanitize(Sanitize(s)) == Sanitize(s)
  {
    SanitizeKeepsClean(Sanitize(s));
  }

  /** The filter works character by character, so it keeps the order of what it keeps. */
  lemma {:induction false} SanitizeAppend(a: string, b: string)
    ensures Sanitize(a + b) == Sanitize(a) + Sanitize(b)
  {
    if a == [] {
      assert a + b == b;
    } else {
      assert (a + b)[0] == a[0];
      assert (a + b)[1..] == a[1..] + b;
      SanitizeAppend(a[1..], b);
    }
  }

  /** Every character that is not illegal survives as often as it occurs; illegal ones vanish. */
  lemma {:induction false} SanitizeCounts(s: string, c: char)
    ensures multiset(Sanitize(s))[c] == if IsIllegal(c) then 0 else multiset(s)[c]
  {
    if s != [] {
      SanitizeCounts(s[1..], c);
      assert s == [s[0]] + s[1..];
      assert multiset(s) == multiset([s[0]]) + multiset(s[1..]);
    }
  }

  /** Fixed temporary file names of the two downloaded tracks. */
  const VideoTemp: string := "v_temp.mp4"
  const AudioTemp: string := "a_temp.mp4"

  /** The output file: the sanitised title, an underscore, the resolution and the `.mp4` extension. */
  function OutputName(title: string, resolution: string): (r: string)
    ensures IsClean(resolution) ==> IsClean(r)
    ensures |r| >= |Sanitize(title)| + 5 && r[|r| - 4..] == ".mp4"
  {
    Sanitize(title) + "_" + resolution + ".mp4"
  }

  /** Feeding an already sanitised title back in names the same file. */
  lemma OutputNameStable(title: string, resolution: string)
    ensures OutputName(Sanitize(title), resolution) == OutputName(title, resolution)
  {
    SanitizeIdempotent(title);
  }

  const SearchingText: string := "Searching for streams..."
  const LoadedText: string := "Formats loaded successfully!"
  const VideoTrackText: string := "Downloading Video Track..."
  const AudioTrackText: string := "Downloading Audio Track..."
  const MergingText: string := "Merging tracks (FFmpeg)..."
  const StandardText: string := "Downloading Standard Video..."

  /** Status after a failed fetch: `Error: ` and at most the first 45 characters of the exception text. */
  function ErrorStatus(message: string): (r: string)
    ensures 7 <= |r| <= 7 + 45 && r[..7] == "Error: "
    ensures |message| <= 45 ==> r == "Error: " + message
    ensures |message| > 45 ==> r == "Error: " + message[..45]
  {
    "Error: " + Prefix(message, 45)
  }

  /** Status after a failed download: `Download Error: ` and at most the first 45 characters of the exception text. */
  function DownloadErrorStatus(message: string): (r: string)
    ensures 16 <= |r| <= 16 + 45 && r[..16] == "Download Error: "
    ensures |message| <= 45 ==> r == "Download Error: " + message
    ensures |message| > 45 ==> r == "Download Error: " + message[..45]
  {
    "Download Error: " + Prefix(message, 45)
  }

  /** Status after a finished download: `Saved: `, at most the first 30 characters of the file name, and three dots. */
  function SavedStatus(output: string): (r: string)
    ensures 7 + 3 <= |r| <= 7 + 30 + 3 && r[..7] == "Saved: " && r[|r| - 3..] == "..."
    ensures |output| <= 30 ==> r == "Saved: " + output + "..."
    ensures |output| > 30 ==> r == "Saved: " + output[..30] + "..."
  {
    "Saved: " + Prefix(output, 30) + "..."
  }

  /** A user can always tell success from failure, and a fetch error from a download error. */
  lemma StatusesDistinct(m1: string, m2: string, output: string)
    ensures ErrorStatus(m1) != SavedStatus(output)
    ensures DownloadErrorStatus(m2) != SavedStatus(output)
    ensures ErrorStatus(m1) != DownloadErrorStatus(m2)
    ensures ErrorStatus(m1) != LoadedText
    ensures DownloadErrorStatus(m2) != LoadedText
    ensures SavedStatus(output) != LoadedText
  {
    assert ErrorStatus(m1)[0] == 'E';
    assert DownloadErrorStatus(m2)[0] == 'D';
    assert SavedStatus(output)[0] == 'S';
    assert LoadedText[0] == 'F';
  }
}
