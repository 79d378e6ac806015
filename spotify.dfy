/** The Spotify strategy (downloader.py: `download_spotify` and
    `download_spotify_fallback`). The spotdl subprocess, the page fetch, the
    page scraping and the YouTube download the fallback ends in are inputs:
    each is an outcome given to the model, as are the directory listing and
    the facts the scraping found. */
module Spotify {
  import opened Wrappers
  import opened Text
  import opened Sanitize
  import opened Progress
  import opened Output
  import opened Playlist

  /** What a strategy hands back: the produced file and its display name. */
  datatype Acquired = Acquired(path: string, displayName: string)

  datatype Strategy = SpotDl | YouTubeSearch

  /** One run of `download_spotify`: its outcome and the strategies it tried,
      in the order it tried them. */
  datatype ChainRun = ChainRun(result: Result<Acquired>, attempts: seq<Strategy>)

  const FfmpegErrorPrefix := "Erreur FFmpeg: "
  const NoFfmpegMessage := "FFmpeg n'est pas disponible."
  const SpotdlFailedPrefix := "Erreur lors du téléchargement Spotify avec spotdl: "
  const FallbackFailedPrefix := "\nLe fallback YouTube a aussi échoué: "

  /** The outcome a strategy had in this run. */
  function OutcomeOf(s: Strategy, spotdl: Result<Acquired>, fallback: Result<Acquired>): Result<Acquired> {
    match s
    case SpotDl => spotdl
    case YouTubeSearch => fallback
  }

  /** The error raised when spotdl and then the fallback both failed. */
  function BothFailedMessage(spotdlError: string, fallbackError: string): string {
    SpotdlFailedPrefix + spotdlError + FallbackFailedPrefix + fallbackError
  }

  /** The error names both failures, spotdl's first. */
  lemma {:induction false} BothFailuresReported(e1: string, e2: string)
    ensures var m := BothFailedMessage(e1, e2);
      && OccursAt(m, e1, |SpotdlFailedPrefix|)
      && OccursAt(m, e2, |SpotdlFailedPrefix| + |e1| + |FallbackFailedPrefix|)
      && Contains(m, e1) && Contains(m, e2)
  {
    var m := BothFailedMessage(e1, e2);
    var i1 := |SpotdlFailedPrefix|;
    var i2 := |SpotdlFailedPrefix| + |e1| + |FallbackFailedPrefix|;
    assert m[i1..i1 + |e1|] == e1;
    assert m[i2..i2 + |e2|] == e2;
    assert OccursAt(m, e1, i1) && OccursAt(m, e2, i2);
  }

  /** `download_spotify` once the engines ran: the FFmpeg gate, then spotdl
      when it is installed, then the YouTube-search fallback when spotdl is
      missing or failed. `ffmpeg` is the outcome of `ensure_ffmpeg`. */
  function Chain(ffmpeg: Result<string>, spotdlInstalled: bool, spotdl: Result<Acquired>, fallback: Result<Acquired>): (run: ChainRun)
    // The gate stops everything before any strategy is tried.
    ensures ffmpeg.Err? ==> run == ChainRun(Err(FfmpegErrorPrefix + ffmpeg.msg), [])
    ensures ffmpeg == Ok("") ==> run == ChainRun(Err(NoFfmpegMessage), [])
    // Past the gate, spotdl is tried first when installed, the fallback is
    // tried exactly when spotdl was missing or failed, and no strategy twice.
    ensures ffmpeg.Ok? && ffmpeg.value != "" ==>
              && 1 <= |run.attempts| <= 2
              && (run.attempts[0] == SpotDl <==> spotdlInstalled)
              && (YouTubeSearch in run.attempts <==> !spotdlInstalled || spotdl.Err?)
              && (|run.attempts| == 2 ==> run.attempts == [SpotDl, YouTubeSearch])
    // Every strategy before the last one failed; the run succeeds exactly
    // when some strategy did, and then with that strategy's result.
    ensures forall k :: 0 <= k < |run.attempts| - 1 ==> OutcomeOf(run.attempts[k], spotdl, fallback).Err?
    ensures run.result.Ok? <==> exists k :: 0 <= k < |run.attempts| && OutcomeOf(run.attempts[k], spotdl, fallback).Ok?
    ensures run.result.Ok? ==> run.result == OutcomeOf(run.attempts[|run.attempts| - 1], spotdl, fallback)
    // A fallback that fails on its own is reported as it is; after a spotdl
    // failure both messages are reported.
    ensures run.attempts == [YouTubeSearch] && fallback.Err? ==> run.result == fallback
    ensures run.attempts == [SpotDl, YouTubeSearch] && fallback.Err? ==>
              run.result == Err(BothFailedMessage(spotdl.msg, fallback.msg))
  {
    if ffmpeg.Err? then ChainRun(Err(FfmpegErrorPrefix + ffmpeg.msg), [])
    else if ffmpeg.value == "" then ChainRun(Err(NoFfmpegMessage), [])
    else if !spotdlInstalled then
      assert OutcomeOf(YouTubeSearch, spotdl, fallback) == fallback;
      ChainRun(fallback, [YouTubeSearch])
    else if spotdl.Ok? then ChainRun(spotdl, [SpotDl])
    else if fallback.Ok? then ChainRun(fallback, [SpotDl, YouTubeSearch])
    else ChainRun(Err(BothFailedMessage(spotdl.msg, fallback.msg)), [SpotDl, YouTubeSearch])
  }

  /** The record written before spotdl runs. */
  const SearchingRecord: Record := map["percent" := Num(10.0), "status" := Str("searching")]

  /** A fallback run does not change what the gate decided: the chain fails
      with both messages exactly when spotdl ran and both strategies failed. */
  lemma {:induction false} ChainFailsOnlyWhenAllFail(ffmpeg: Result<string>, spotdlInstalled: bool, spotdl: Result<Acquired>, fallback: Result<Acquired>)
    requires ffmpeg.Ok? && ffmpeg.value != ""
    ensures var run := Chain(ffmpeg, spotdlInstalled, spotdl, fallback);
      run.result.Err? <==> fallback.Err? && (!spotdlInstalled || spotdl.Err?)
  {
    var run := Chain(ffmpeg, spotdlInstalled, spotdl, fallback);
    if spotdlInstalled && spotdl.Ok? {
      assert run.attempts == [SpotDl];
      assert OutcomeOf(run.attempts[0], spotdl, fallback).Ok?;
    }
  }

  /** `download_spotify` with its one write to the job table: the searching
      record, written when spotdl is about to run for a tracked job. The
      writes of the fallback's own progress hooks are not part of this model. */
  method DownloadSpotify(store: ProgressStore?, progressId: Option<string>, ffmpeg: Result<string>,
                         spotdlInstalled: bool, spotdl: Result<Acquired>, fallback: Result<Acquired>)
    returns (r: Result<Acquired>)
    modifies store
    ensures r == Chain(ffmpeg, spotdlInstalled, spotdl, fallback).result
    ensures store != null && ffmpeg.Ok? && ffmpeg.value != "" && spotdlInstalled && Tracked(progressId) ==>
              store.jobs == old(store.jobs)[progressId.value := SearchingRecord]
    ensures store != null && !(ffmpeg.Ok? && ffmpeg.value != "" && spotdlInstalled && Tracked(progressId)) ==>
              store.jobs == old(store.jobs)
  {
    if ffmpeg.Err? {
      return Err(FfmpegErrorPrefix + ffmpeg.msg);
    }
    if ffmpeg.value == "" {
      return Err(NoFfmpegMessage);
    }
    if !spotdlInstalled {
      return fallback;
    }
    if Tracked(progressId) && store != null {
      store.Put(progressId.value, SearchingRecord);
    }
    if spotdl.Ok? {
      return spotdl;
    }
    if fallback.Ok? {
      return fallback;
    }
    r := Err(BothFailedMessage(spotdl.msg, fallback.msg));
  }

  // ----- The spotdl attempt after its subprocess -----

  const SpotdlRunPrefix := "Erreur d'exécution spotdl: "
  const SpotdlNoFileMessage := "Fichier téléchargé introuvable après exécution de spotdl."

  /** What the spotdl attempt makes of its subprocess: a non-zero exit code
      fails with its stderr; otherwise the newest `.mp3` of the upload folder
      (`listing`, name and modification time) becomes the output, named after
      the custom name or else after that file's name without `.mp3`. */
  method SpotdlAttempt(outputPath: string, custom: Option<string>, returnCode: int, stderr: string,
                       listing: seq<(string, int)>)
    returns (r: Result<Acquired>)
    ensures returnCode != 0 ==> r == Err(SpotdlRunPrefix + stderr)
    ensures returnCode == 0 ==>
              (r.Err? <==> forall j :: 0 <= j < |listing| ==> !EndsWith(listing[j].0, ".mp3"))
    ensures returnCode == 0 && r.Err? ==> r.msg == SpotdlNoFileMessage
    ensures r.Ok? ==> r.value.path == outputPath && IsClean(r.value.displayName)
    ensures r.Ok? ==> exists i :: (IsNewest(listing, "", i) &&
              r.value.displayName == DisplayName(custom, Some(RemoveAll(listing[i].0, ".mp3")), ""))
  {
    if returnCode != 0 {
      return Err(SpotdlRunPrefix + stderr);
    }
    var best := NewestCandidate(listing, "");
    assert forall j :: 0 <= j < |listing| ==> (IsCandidate(listing[j].0, "") <==> EndsWith(listing[j].0, ".mp3"));
    if best.None? {
      return Err(SpotdlNoFileMessage);
    }
    var name := listing[best.value].0;
    r := Ok(Acquired(outputPath, DisplayName(custom, Some(RemoveAll(name, ".mp3")), "")));
  }

  // ----- The YouTube-search fallback -----

  /** What the scraping of the track page found; each is `None` when its
      pattern did not match. */
  datatype PageFacts = PageFacts(
    description: Option<(string, string)>,             // title and artist groups of the og:description match
    ogTitle: Option<string>,                            // the og:title content
    artistsName: Option<string>,                        // the first "name" in the embedded "artists" list
    entity: Option<(Option<string>, Option<string>)>)   // `Spotify.Entity` name and first artist, when it parses

  /** The page fetch: a response with its status code, or a request error. */
  datatype PageFetch = Response(status: nat, facts: PageFacts) | RequestError(msg: string)

  const InvalidUrlMessage := "URL Spotify invalide."
  const NoTitleMessage := "Impossible de trouver le titre de la musique."
  const FallbackErrorPrefix := "Erreur lors du fallback Spotify: "
  const SearchPrefix := "ytsearch1:"

  /** The separators the og:title heuristic tries, in order: hyphen, en dash,
      em dash and horizontal bar, each with a space on both sides. */
  const Separators: seq<Separator> := [" - ", " \U{2013} ", " \U{2014} ", " \U{2015} "]

  /** A separator `str.split` accepts. */
  type Separator = s: string | s != [] witness " "

  predicate IsSlash(c: char) { c == '/' }

  /** `parsed.path.strip('/').split('/')`. */
  function PathSegments(path: string): (segs: seq<string>)
    ensures |segs| >= 1
  {
    Split(StripBy(path, IsSlash), "/")
  }

  /** The path has the two segments the fallback needs (kind and id) exactly
      when a slash is left once the outer slashes are stripped. */
  lemma {:induction false} TwoSegmentsIffInnerSlash(path: string)
    ensures |PathSegments(path)| >= 2 <==> Contains(StripBy(path, IsSlash), "/")
  {
    SplitInTwoIffContains(StripBy(path, IsSlash), "/");
  }

  /** A part that strips to nothing, which the comprehension drops. */
  predicate Blank(p: string) { Strip(p) == "" }

  /** The stripped form of each part. */
  function StripAll(parts: seq<string>): (r: seq<string>)
    ensures |r| == |parts|
    ensures forall k :: 0 <= k < |parts| ==> r[k] == Strip(parts[k])
  {
    seq(|parts|, k requires 0 <= k < |parts| => Strip(parts[k]))
  }

  /** The non-empty strings of `xs`, in order. */
  function NonEmpty(xs: seq<string>): (r: seq<string>)
    ensures |r| <= |xs|
    ensures forall k :: 0 <= k < |r| ==> r[k] != ""
  {
    if xs == [] then []
    else
      var last := xs[|xs| - 1];
      NonEmpty(xs[..|xs| - 1]) + (if last != "" then [last] else [])
  }

  /** `[p.strip() for p in parts if p.strip()]`. */
  function NonBlankParts(parts: seq<string>): (r: seq<string>)
    ensures |r| <= |parts|
    ensures forall k :: 0 <= k < |r| ==> r[k] != "" && IsStripped(r[k])
  {
    if parts == [] then []
    else
      var last := Strip(parts[|parts| - 1]);
      StripKeepsCharacters(parts[|parts| - 1]);
      NonBlankParts(parts[..|parts| - 1]) + (if last != "" then [last] else [])
  }

  /** The comprehension strips every part, then keeps the non-empty results. */
  lemma {:induction false} NonBlankIsFilter(parts: seq<string>)
    ensures NonBlankParts(parts) == NonEmpty(StripAll(parts))
  {
    if parts != [] {
      var n := |parts|;
      var init := parts[..n - 1];
      NonBlankIsFilter(init);
      var xs := StripAll(parts);
      assert xs[..n - 1] == StripAll(init);
      assert xs[n - 1] == Strip(parts[n - 1]);
    }
  }

  lemma {:induction false} NonEmptyMembership(xs: seq<string>, x: string)
    ensures x in NonEmpty(xs) <==> x != "" && x in xs
  {
    if xs != [] {
      var init := xs[..|xs| - 1];
      NonEmptyMembership(init, x);
      assert xs == init + [xs[|xs| - 1]];
    }
  }

  lemma {:induction false} NonEmptyAppend(a: seq<string>, b: seq<string>)
    ensures NonEmpty(a + b) == NonEmpty(a) + NonEmpty(b)
  {
    if b == [] {
      assert a + b == a;
    } else {
      var init := b[..|b| - 1];
      assert (a + b)[..|a + b| - 1] == a + init;
      assert (a + b)[|a + b| - 1] == b[|b| - 1];
      NonEmptyAppend(a, init);
    }
  }

  /** Nothing is kept of strings that are all empty. */
  lemma NonEmptyOfEmpties(xs: seq<string>)
    requires forall i :: 0 <= i < |xs| ==> xs[i] == ""
    ensures NonEmpty(xs) == []
  {
    if NonEmpty(xs) != [] {
      var x := NonEmpty(xs)[0];
      NonEmptyMembership(xs, x);
    }
  }

  lemma {:induction false} NonEmptyTwo(xs: seq<string>)
    ensures |NonEmpty(xs)| >= 2 <==> exists i, j :: 0 <= i < j < |xs| && xs[i] != "" && xs[j] != ""
  {
    if xs != [] {
      var n := |xs|;
      var init := xs[..n - 1];
      var r' := NonEmpty(init);
      assert NonEmpty(xs) == r' + (if xs[n - 1] != "" then [xs[n - 1]] else []);
      NonEmptyTwo(init);
      if exists i, j :: 0 <= i < j < n && xs[i] != "" && xs[j] != "" {
        var i, j :| 0 <= i < j < n && xs[i] != "" && xs[j] != "";
        assert init[i] == xs[i];
        if j < n - 1 {
          assert init[j] == xs[j];
        } else {
          NonEmptyMembership(init, xs[i]);
        }
      }
      if |NonEmpty(xs)| >= 2 {
        if xs[n - 1] == "" {
          var i, j :| 0 <= i < j < |init| && init[i] != "" && init[j] != "";
          assert xs[i] != "" && xs[j] != "";
        } else {
          NonEmptyMembership(init, r'[0]);
          var i :| 0 <= i < |init| && init[i] == r'[0];
          assert xs[i] != "" && xs[n - 1] != "";
        }
      }
    }
  }

  /** A non-empty string preceded only by empty ones is the first kept. */
  lemma NonEmptyFirst(xs: seq<string>, j: nat)
    requires j < |xs| && xs[j] != "" && forall i :: 0 <= i < j ==> xs[i] == ""
    ensures NonEmpty(xs) != [] && NonEmpty(xs)[0] == xs[j]
  {
    var before, rest := xs[..j], xs[j + 1..];
    assert before + ([xs[j]] + rest) == xs;
    assert forall i :: 0 <= i < |before| ==> before[i] == "";
    NonEmptyOfEmpties(before);
    NonEmptyCons(xs[j], rest);
    NonEmptyAppend(before, [xs[j]] + rest);
  }

  /** A non-empty string in front is kept in front. */
  lemma NonEmptyCons(x: string, xs: seq<string>)
    requires x != ""
    ensures NonEmpty([x] + xs) == [x] + NonEmpty(xs)
  {
    NonEmptyAppend([x], xs);
    assert NonEmpty([x]) == [x] by { assert [x][..0] == []; }
  }

  /** A non-empty string followed only by empty ones is the last kept. */
  lemma NonEmptyLast(xs: seq<string>, j: nat)
    requires j < |xs| && xs[j] != "" && forall i :: j < i < |xs| ==> xs[i] == ""
    ensures NonEmpty(xs) != [] && NonEmpty(xs)[|NonEmpty(xs)| - 1] == xs[j]
  {
    NonEmptyOfEmpties(xs[j + 1..]);
    assert xs[..j + 1] + xs[j + 1..] == xs;
    NonEmptyAppend(xs[..j + 1], xs[j + 1..]);
    assert xs[..j + 1][..j] == xs[..j];
    assert NonEmpty(xs[..j + 1]) == NonEmpty(xs[..j]) + [xs[j]];
  }

  /** The kept parts are exactly the stripped forms of the non-blank parts. */
  lemma NonBlankMembership(parts: seq<string>, x: string)
    ensures x in NonBlankParts(parts) <==> x != "" && exists k :: 0 <= k < |parts| && Strip(parts[k]) == x
  {
    NonBlankIsFilter(parts);
    NonEmptyMembership(StripAll(parts), x);
  }

  /** The comprehension keeps the order of the parts: it distributes over
      concatenation. */
  lemma {:induction false} NonBlankAppend(a: seq<string>, b: seq<string>)
    ensures NonBlankParts(a + b) == NonBlankParts(a) + NonBlankParts(b)
  {
    if b == [] {
      assert a + b == a;
    } else {
      var init := b[..|b| - 1];
      assert (a + b)[..|a + b| - 1] == a + init;
      assert (a + b)[|a + b| - 1] == b[|b| - 1];
      NonBlankAppend(a, init);
    }
  }

  /** At least two parts are kept exactly when two of the parts are not
      blank. */
  lemma NonBlankTwo(parts: seq<string>)
    ensures |NonBlankParts(parts)| >= 2 <==>
              exists i, j :: 0 <= i < j < |parts| && !Blank(parts[i]) && !Blank(parts[j])
  {
    var xs := StripAll(parts);
    NonBlankIsFilter(parts);
    NonEmptyTwo(xs);
    if exists i, j :: 0 <= i < j < |xs| && xs[i] != "" && xs[j] != "" {
      var i, j :| 0 <= i < j < |xs| && xs[i] != "" && xs[j] != "";
      assert !Blank(parts[i]) && !Blank(parts[j]);
    }
    if exists i, j :: 0 <= i < j < |parts| && !Blank(parts[i]) && !Blank(parts[j]) {
      var i, j :| 0 <= i < j < |parts| && !Blank(parts[i]) && !Blank(parts[j]);
      assert xs[i] != "" && xs[j] != "";
    }
  }

  /** The first kept part is the stripped first non-blank part. */
  lemma NonBlankFirst(parts: seq<string>, j: nat)
    requires j < |parts| && !Blank(parts[j]) && forall i :: 0 <= i < j ==> Blank(parts[i])
    ensures NonBlankParts(parts) != [] && NonBlankParts(parts)[0] == Strip(parts[j])
  {
    var xs := StripAll(parts);
    NonBlankIsFilter(parts);
    assert forall i :: 0 <= i < j ==> xs[i] == "";
    NonEmptyFirst(xs, j);
  }

  /** The last kept part is the stripped last non-blank part. */
  lemma NonBlankLast(parts: seq<string>, j: nat)
    requires j < |parts| && !Blank(parts[j]) && forall i :: j < i < |parts| ==> Blank(parts[i])
    ensures NonBlankParts(parts) != [] && NonBlankParts(parts)[|NonBlankParts(parts)| - 1] == Strip(parts[j])
  {
    var xs := StripAll(parts);
    NonBlankIsFilter(parts);
    assert forall i :: j < i < |xs| ==> xs[i] == "";
    NonEmptyLast(xs, j);
  }

  /** The artist and title a list of parts yields: the first and the last
      non-blank part, stripped, when there are at least two. */
  function PartsSplit(parts: seq<string>): (r: Option<(string, string)>) {
    Ends(NonBlankParts(parts))
  }

  /** Both halves of a split are non-empty and already stripped. */
  lemma PartsSplitStripped(parts: seq<string>)
    ensures var r := PartsSplit(parts);
      r.Some? ==> r.value.0 != "" && IsStripped(r.value.0) && r.value.1 != "" && IsStripped(r.value.1)
  {
  }

  /** The first and the last element of a sequence of at least two. */
  function Ends<T>(xs: seq<T>): Option<(T, T)> {
    if |xs| >= 2 then Some((xs[0], xs[|xs| - 1])) else None
  }

  lemma EndsOf<T>(xs: seq<T>, first: T, last: T)
    requires |xs| >= 2 && xs[0] == first && xs[|xs| - 1] == last
    ensures Ends(xs) == Some((first, last))
  {
  }

  /** One pass of the og:title loop: when `sep` occurs in the title and
      leaves at least two non-blank parts, the first is the artist and the
      last the title (TrySplitWhen, TrySplitArtist and TrySplitTitle). */
  function TrySplit(raw: string, sep: Separator): (r: Option<(string, string)>)
    ensures r.Some? ==> r.value.0 != "" && IsStripped(r.value.0) && r.value.1 != "" && IsStripped(r.value.1)
  {
    if Contains(raw, sep) then PartsSplitStripped(Split(raw, sep)); PartsSplit(Split(raw, sep)) else None
  }

  /** A list of parts yields a split exactly when two of them are not blank. */
  lemma PartsSplitWhen(parts: seq<string>)
    ensures PartsSplit(parts).Some? <==> exists i, j :: 0 <= i < j < |parts| && !Blank(parts[i]) && !Blank(parts[j])
  {
    NonBlankTwo(parts);
  }

  /** The artist of a split is the first non-blank part, stripped. */
  lemma PartsSplitArtist(parts: seq<string>)
    ensures PartsSplit(parts).Some? ==>
              forall i :: 0 <= i < |parts| && !Blank(parts[i]) && (forall k :: 0 <= k < i ==> Blank(parts[k])) ==>
                PartsSplit(parts).value.0 == Strip(parts[i])
  {
    if PartsSplit(parts).Some? {
      forall i | 0 <= i < |parts| && !Blank(parts[i]) && (forall k :: 0 <= k < i ==> Blank(parts[k]))
        ensures PartsSplit(parts).value.0 == Strip(parts[i])
      {
        var kept := NonBlankParts(parts);
        NonBlankFirst(parts, i);
        EndsOf(kept, Strip(parts[i]), kept[|kept| - 1]);
      }
    }
  }

  /** The title of a split is the last non-blank part, stripped. */
  lemma PartsSplitTitle(parts: seq<string>)
    ensures PartsSplit(parts).Some? ==>
              forall j :: 0 <= j < |parts| && !Blank(parts[j]) && (forall k :: j < k < |parts| ==> Blank(parts[k])) ==>
                PartsSplit(parts).value.1 == Strip(parts[j])
  {
    if PartsSplit(parts).Some? {
      forall j | 0 <= j < |parts| && !Blank(parts[j]) && (forall k :: j < k < |parts| ==> Blank(parts[k]))
        ensures PartsSplit(parts).value.1 == Strip(parts[j])
      {
        var kept := NonBlankParts(parts);
        NonBlankLast(parts, j);
        EndsOf(kept, kept[0], Strip(parts[j]));
      }
    }
  }

  /** A pass splits exactly when the separator occurs and two of the parts
      around it are not blank. */
  lemma TrySplitWhen(raw: string, sep: Separator)
    ensures var parts := Split(raw, sep);
      TrySplit(raw, sep).Some? <==>
        Contains(raw, sep) && exists i, j :: 0 <= i < j < |parts| && !Blank(parts[i]) && !Blank(parts[j])
  {
    var parts := Split(raw, sep);
    PartsSplitWhen(parts);
    assert TrySplit(raw, sep).Some? <==> Contains(raw, sep) && PartsSplit(parts).Some?;
    if TrySplit(raw, sep).Some? {
      var i, j :| 0 <= i < j < |parts| && !Blank(parts[i]) && !Blank(parts[j]);
      assert 0 <= i < j < |Split(raw, sep)| && !Blank(Split(raw, sep)[i]) && !Blank(Split(raw, sep)[j]);
    }
    if Contains(raw, sep) && exists i, j :: 0 <= i < j < |Split(raw, sep)| && !Blank(Split(raw, sep)[i]) && !Blank(Split(raw, sep)[j]) {
      var i, j :| 0 <= i < j < |Split(raw, sep)| && !Blank(Split(raw, sep)[i]) && !Blank(Split(raw, sep)[j]);
      assert 0 <= i < j < |parts| && !Blank(parts[i]) && !Blank(parts[j]);
    }
  }

  /** The artist of a pass that splits is the first non-blank part, stripped. */
  lemma TrySplitArtist(raw: string, sep: Separator)
    ensures var r, parts := TrySplit(raw, sep), Split(raw, sep);
      r.Some? ==> forall i :: 0 <= i < |parts| && !Blank(parts[i]) && (forall k :: 0 <= k < i ==> Blank(parts[k])) ==>
                    r.value.0 == Strip(parts[i])
  {
    PartsSplitArtist(Split(raw, sep));
  }

  /** The title of a pass that splits is the last non-blank part, stripped. */
  lemma TrySplitTitle(raw: string, sep: Separator)
    ensures var r, parts := TrySplit(raw, sep), Split(raw, sep);
      r.Some? ==> forall j :: 0 <= j < |parts| && !Blank(parts[j]) && (forall k :: j < k < |parts| ==> Blank(parts[k])) ==>
                    r.value.1 == Strip(parts[j])
  {
    PartsSplitTitle(Split(raw, sep));
  }

  /** The first `Some` of a sequence of passes, or `None` when every pass
      found nothing: the loop's `break` after the first pass that splits. */
  function FirstSome<T>(passes: seq<Option<T>>): (r: Option<T>)
    ensures r.None? <==> forall k :: 0 <= k < |passes| ==> passes[k].None?
    ensures r.Some? ==> exists k :: 0 <= k < |passes| && passes[k] == r && forall j :: 0 <= j < k ==> passes[j].None?
  {
    if passes == [] then None
    else if passes[0].Some? then
      assert passes[0] == passes[0];
      passes[0]
    else
      var r := FirstSome(passes[1..]);
      assert forall k :: 1 <= k < |passes| ==> passes[k] == passes[1..][k - 1];
      r
  }

  /** The og:title loop over the separators, in order: the split of the
      first separator whose pass splits, or nothing when none does. */
  function SplitTitle(raw: string, seps: seq<Separator>): (r: Option<(string, string)>)
    ensures r.None? <==> forall k :: 0 <= k < |seps| ==> TrySplit(raw, seps[k]).None?
    ensures r.Some? ==>
              exists k :: 0 <= k < |seps| && r == TrySplit(raw, seps[k]) && forall j :: 0 <= j < k ==> TrySplit(raw, seps[j]).None?
    ensures r.Some? ==> r.value.0 != "" && IsStripped(r.value.0) && r.value.1 != "" && IsStripped(r.value.1)
  {
    var passes := seq(|seps|, k requires 0 <= k < |seps| => TrySplit(raw, seps[k]));
    assert forall k :: 0 <= k < |seps| ==> passes[k] == TrySplit(raw, seps[k]);
    FirstSome(passes)
  }

  /** An empty og:title is split by no separator. */
  lemma EmptyNeverSplits(seps: seq<Separator>)
    ensures SplitTitle("", seps).None?
  {
    forall k | 0 <= k < |seps| ensures TrySplit("", seps[k]).None? {
      assert !Contains("", seps[k]);
    }
  }

  /** A title and an artist, `""` standing for a missing one. */
  datatype Track = Track(title: string, artist: string)

  /** The og:description step: the stripped title and artist groups. */
  function FromDescription(d: Option<(string, string)>): Track {
    if d.Some? then Track(Strip(d.value.0), Strip(d.value.1)) else Track("", "")
  }

  /** The og:title step, taken while the title is missing: the separator
      loop's artist and title, or else the whole stripped og:title as title. */
  function WithOgTitle(t: Track, og: Option<string>): (r: Track)
    ensures t.title != "" || og.None? ==> r == t
    ensures t.title == "" && og.Some? && SplitTitle(Strip(og.value), Separators).Some? ==>
              var split := SplitTitle(Strip(og.value), Separators).value;
              r == Track(split.1, split.0)
    ensures t.title == "" && og.Some? && SplitTitle(Strip(og.value), Separators).None? ==>
              r == Track(Strip(og.value), t.artist)
    ensures og.Some? ==> (r.title != "" <==> t.title != "" || Strip(og.value) != "")
  {
    EmptyNeverSplits(Separators);
    if t.title != "" || og.None? then t
    else
      var raw := Strip(og.value);
      var split := SplitTitle(raw, Separators);
      if split.Some? then Track(split.value.1, split.value.0) else Track(raw, t.artist)
  }

  /** The "artists" step, taken while the artist is missing. */
  function WithArtistsName(t: Track, name: Option<string>): Track {
    if t.artist == "" && name.Some? then Track(t.title, Strip(name.value)) else t
  }

  /** The `Spotify.Entity` step, taken while either is missing: each field the
      entity data has replaces the current one. */
  function WithEntity(t: Track, entity: Option<(Option<string>, Option<string>)>): Track {
    if (t.title == "" || t.artist == "") && entity.Some? then
      Track(if entity.value.0.Some? then entity.value.0.value else t.title,
            if entity.value.1.Some? then entity.value.1.value else t.artist)
    else t
  }

  /** The title and artist the fallback searches for: the og:description
      match, else the og:title, then the "artists" name for a missing artist,
      then the `Spotify.Entity` data when either is still missing. */
  function ResolveTrack(f: PageFacts): (track: Track)
    // A description naming both wins outright.
    ensures f.description.Some? && Strip(f.description.value.0) != "" && Strip(f.description.value.1) != "" ==>
              track == FromDescription(f.description)
    // Without a description title, an og:title that splits gives both.
    ensures FromDescription(f.description).title == "" && f.ogTitle.Some? &&
            SplitTitle(Strip(f.ogTitle.value), Separators).Some? ==>
              var split := SplitTitle(Strip(f.ogTitle.value), Separators).value;
              track == Track(split.1, split.0)
    // The title is missing only when neither meta tag gave one and the
    // entity data gave none, or the entity data gave an empty name.
    ensures track.title == "" ==>
              || (&& FromDescription(f.description).title == ""
                  && (f.ogTitle.None? || Strip(f.ogTitle.value) == ""))
              || (f.entity.Some? && f.entity.value.0 == Some(""))
  {
    WithEntity(WithArtistsName(WithOgTitle(FromDescription(f.description), f.ogTitle), f.artistsName), f.entity)
  }

  /** `f"{artist} - {title}" if artist else title`. */
  function SearchQuery(title: string, artist: string): (q: string)
    ensures EndsWith(q, title)
    ensures artist != "" ==> q == artist + " - " + title
    ensures artist == "" ==> q == title
  {
    if artist != "" then artist + " - " + title else title
  }

  /** The URL handed to the YouTube strategy, or the error that stops the
      fallback before it: a path without two segments, a failed fetch, a
      status other than 200, or no title. Errors raised after the path check
      carry the fallback's prefix. */
  function SearchTarget(path: string, page: PageFetch): (r: Result<string>)
    ensures |PathSegments(path)| < 2 ==> r == Err(InvalidUrlMessage)
    ensures |PathSegments(path)| >= 2 && r.Err? ==> StartsWith(r.msg, FallbackErrorPrefix)
    ensures |PathSegments(path)| >= 2 && page.Response? && page.status != 200 ==>
              r == Err(FallbackErrorPrefix + ("Impossible de charger la page Spotify (status " + Decimal(page.status) + ")."))
    ensures r.Ok? <==> |PathSegments(path)| >= 2 && page.Response? && page.status == 200 && ResolveTrack(page.facts).title != ""
    ensures r.Ok? ==> var track := ResolveTrack(page.facts);
              r.value == SearchPrefix + SearchQuery(track.title, track.artist)
  {
    if |PathSegments(path)| < 2 then Err(InvalidUrlMessage)
    else if page.RequestError? then
      PrefixStarts(FallbackErrorPrefix, page.msg);
      Err(FallbackErrorPrefix + page.msg)
    else if page.status != 200 then
      var detail := "Impossible de charger la page Spotify (status " + Decimal(page.status) + ").";
      PrefixStarts(FallbackErrorPrefix, detail);
      Err(FallbackErrorPrefix + detail)
    else
      var track := ResolveTrack(page.facts);
      if track.title == "" then
        PrefixStarts(FallbackErrorPrefix, NoTitleMessage);
        Err(FallbackErrorPrefix + NoTitleMessage)
      else Ok(SearchPrefix + SearchQuery(track.title, track.artist))
  }

  /** `download_spotify_fallback`: `youtube` is the outcome of the YouTube
      strategy on the search URL; its failure is reported with the fallback's
      prefix. */
  function Fallback(path: string, page: PageFetch, youtube: Result<Acquired>): (r: Result<Acquired>)
    ensures |PathSegments(path)| < 2 ==> r == Err(InvalidUrlMessage)
    ensures |PathSegments(path)| >= 2 && r.Err? ==> StartsWith(r.msg, FallbackErrorPrefix)
    ensures r.Ok? <==> SearchTarget(path, page).Ok? && youtube.Ok?
    ensures r.Ok? ==> r == youtube
    ensures SearchTarget(path, page).Ok? && youtube.Err? ==> r == Err(FallbackErrorPrefix + youtube.msg)
  {
    match SearchTarget(path, page)
    case Err(m) => Err(m)
    case Ok(_) =>
      if youtube.Ok? then youtube
      else
        PrefixStarts(FallbackErrorPrefix, youtube.msg);
        Err(FallbackErrorPrefix + youtube.msg)
  }

  /** An artist without the separator inside it and not ending in " -",
      joined by the separator to a title without it, splits back into the
      two. */
  lemma {:induction false} SplitJoined(a: string, t: string)
    requires !Contains(a, " - ") && !EndsWith(a, " -") && !Contains(t, " - ")
    ensures Split(a + " - " + t, " - ") == [a, t]
  {
    var s := a + " - " + t;
    assert OccursAt(s, " - ", |a|) by { assert s[|a|..|a| + 3] == " - "; }
    forall i | 0 <= i < |a|
      ensures !OccursAt(s, " - ", i)
    {
      NoSeparatorInArtist(a, t, i);
    }
    assert IndexOf(s, " - ", 0) == |a|;
    assert s[..|a|] == a && s[|a| + 3..] == t;
  }

  /** No separator of the joined string starts inside the artist. */
  lemma NoSeparatorInArtist(a: string, t: string, i: nat)
    requires !Contains(a, " - ") && !EndsWith(a, " -") && i < |a|
    ensures !OccursAt(a + " - " + t, " - ", i)
  {
    var s := a + " - " + t;
    if i + 3 <= |a| {
      assert !OccursAt(a, " - ", i);
      assert s[..|a|] == a;
      assert s[i..i + 3] == s[..|a|][i..i + 3];
    } else if i + 2 == |a| {
      assert a[i] != ' ' || a[i + 1] != '-' by {
        assert a[|a| - 2..] == [a[i], a[i + 1]];
      }
      assert s[i] == a[i] && s[i + 1] == a[i + 1];
      assert s[i..i + 3][0] == s[i] && s[i..i + 3][1] == s[i + 1];
    } else {
      assert s[i + 1] == ' ';
    }
  }

  /** The hyphen separator splits such a joined string back into the two. */
  lemma {:induction false} TrySplitJoined(a: string, t: string)
    requires a != "" && IsStripped(a) && !Contains(a, " - ") && !EndsWith(a, " -")
    requires t != "" && IsStripped(t) && !Contains(t, " - ")
    ensures TrySplit(a + " - " + t, " - ") == Some((a, t))
  {
    var s := a + " - " + t;
    SplitJoined(a, t);
    assert OccursAt(s, " - ", |a|) by { assert s[|a|..|a| + 3] == " - "; }
    StrippedIsFixed(a);
    StrippedIsFixed(t);
    assert NonBlankParts([a, t]) == [a, t] by {
      assert [a, t][..1] == [a];
      assert NonBlankParts([a]) == [a] by { assert [a][..0] == []; }
    }
  }

  /** The query the fallback builds from an artist and a title reads back,
      through the og:title heuristic, as the same artist and title. */
  lemma {:induction false} QueryReadsBack(title: string, artist: string)
    requires title != "" && IsStripped(title) && !Contains(title, " - ")
    requires artist != "" && IsStripped(artist) && !Contains(artist, " - ") && !EndsWith(artist, " -")
    ensures SplitTitle(SearchQuery(title, artist), Separators) == Some((artist, title))
  {
    assert Separators[0] == " - ";
    assert SearchQuery(title, artist) == artist + " - " + title;
    TrySplitJoined(artist, title);
  }

  /** Joining two stripped, non-empty strings with the separator gives a
      stripped string. */
  lemma JoinedIsStripped(a: string, t: string)
    requires a != "" && IsStripped(a) && t != "" && IsStripped(t)
    ensures Strip(a + " - " + t) == a + " - " + t
  {
    var s := a + " - " + t;
    assert s[0] == a[0] && s[|s| - 1] == t[|t| - 1];
    StrippedIsFixed(s);
  }

  /** Such an og:title, stripped, splits into the artist and the title. */
  lemma JoinedTitleSplits(title: string, artist: string)
    requires title != "" && IsStripped(title) && !Contains(title, " - ")
    requires artist != "" && IsStripped(artist) && !Contains(artist, " - ") && !EndsWith(artist, " -")
    ensures SplitTitle(Strip(artist + " - " + title), Separators) == Some((artist, title))
  {
    JoinedIsStripped(artist, title);
    QueryReadsBack(title, artist);
    assert SearchQuery(title, artist) == artist + " - " + title;
  }

  /** A page whose og:title is "artist - title" and that has no description
      match is searched for by its og:title itself. */
  lemma {:induction false} OgTitleIsTheQuery(f: PageFacts, title: string, artist: string)
    requires f.description.None? && f.ogTitle == Some(artist + " - " + title)
    requires title != "" && IsStripped(title) && !Contains(title, " - ")
    requires artist != "" && IsStripped(artist) && !Contains(artist, " - ") && !EndsWith(artist, " -")
    ensures ResolveTrack(f) == Track(title, artist)
    ensures SearchQuery(ResolveTrack(f).title, ResolveTrack(f).artist) == f.ogTitle.value
  {
    JoinedTitleSplits(title, artist);
    var t := WithOgTitle(FromDescription(f.description), f.ogTitle);
    assert t == Track(title, artist);
    assert WithEntity(WithArtistsName(t, f.artistsName), f.entity) == t;
  }
}
