/** `process_playlist` (downloader.py): the playlist name, the Spotify batch
    path, the per-entry loop of the YouTube and SoundCloud path with its
    progress records and partial failure tolerance, and the empty-result
    check. Each item download, the spotdl run and the FFmpeg lookup are
    opaque outcomes given as inputs. */
module Playlist {
  import opened Wrappers
  import opened Text
  import opened Sanitize
  import opened Progress

  const EmptyPlaylistMessage := "Aucun fichier n'a pu être téléchargé de la playlist"
  const NoEntriesMessage := "Impossible de récupérer les éléments de la playlist"
  const UnsupportedMessage := "Type de source non supporté pour les playlists (hors Spotify)"

  /** `playlist_name`: the sanitised title, or "Playlist" when nothing is left
      of it. */
  function PlaylistName(rawTitle: string): (r: string)
    ensures r != "" && IsClean(r)
    ensures SanitizeFilename(rawTitle) != "" ==> r == SanitizeFilename(rawTitle)
    ensures SanitizeFilename(rawTitle) == "" ==> r == DefaultName
  {
    var name := SanitizeFilename(rawTitle);
    if name == "" then
      DefaultNameClean();
      DefaultName
    else name
  }

  const DefaultName := "Playlist"

  lemma DefaultNameClean()
    ensures IsClean(DefaultName)
  {
    var s := DefaultName;
    assert s == ['P', 'l', 'a', 'y', 'l', 'i', 's', 't'];
    LettersAreClean(s);
  }

  /** A name made of ASCII letters is already clean. */
  lemma LettersAreClean(s: string)
    requires forall i :: 0 <= i < |s| ==> 'A' <= s[i] <= 'Z' || 'a' <= s[i] <= 'z'
    ensures IsClean(s)
  {
  }

  // ----- Decimal numerals, for `f"{i:03d}"` and the progress message -----

  function DigitChar(d: nat): char
    requires d < 10
  {
    "0123456789"[d]
  }

  predicate IsDigit(c: char) { '0' <= c <= '9' }

  /** Python's `str(n)` for a natural number. */
  function Decimal(n: nat): (r: string)
    ensures |r| >= 1 && forall i :: 0 <= i < |r| ==> IsDigit(r[i])
    ensures n < 10 ==> |r| == 1
    ensures n < 100 ==> |r| <= 2
    ensures n < 1000 ==> |r| <= 3
  {
    if n < 10 then [DigitChar(n)] else Decimal(n / 10) + [DigitChar(n % 10)]
  }

  /** The number a string of digits denotes. */
  function ValueOf(s: string): nat
    requires forall i :: 0 <= i < |s| ==> IsDigit(s[i])
  {
    if s == [] then 0
    else
      assert IsDigit(s[|s| - 1]);
      ValueOf(s[..|s| - 1]) * 10 + (s[|s| - 1] as int - '0' as int)
  }

  lemma {:induction false} DecimalRoundTrip(n: nat)
    ensures ValueOf(Decimal(n)) == n
  {
    if n >= 10 {
      DecimalRoundTrip(n / 10);
      var r := Decimal(n);
      assert r[..|r| - 1] == Decimal(n / 10);
    }
  }

  /** Leading zeros do not change the value. */
  lemma {:induction false} LeadingZeros(z: string, s: string)
    requires forall i :: 0 <= i < |z| ==> z[i] == '0'
    requires forall i :: 0 <= i < |s| ==> IsDigit(s[i])
    ensures ValueOf(z + s) == ValueOf(s)
    decreases |z| + |s|
  {
    if s == [] {
      assert z + s == z;
      if z != [] {
        LeadingZeros(z[..|z| - 1], []);
        assert z[..|z| - 1] + [] == z[..|z| - 1];
      }
    } else {
      LeadingZeros(z, s[..|s| - 1]);
      assert (z + s)[..|z + s| - 1] == z + s[..|s| - 1];
    }
  }

  /** `f"{i:03d}"`: the decimal numeral left-padded with zeros to three
      characters. */
  function IndexPrefix(i: nat): (r: string)
    ensures |r| >= 3 && (i < 1000 ==> |r| == 3)
    ensures forall k :: 0 <= k < |r| ==> IsDigit(r[k])
  {
    var d := Decimal(i);
    if |d| < 3 then "000"[..3 - |d|] + d else d
  }

  /** The padded prefix still denotes the index. */
  lemma IndexPrefixRoundTrip(i: nat)
    ensures ValueOf(IndexPrefix(i)) == i
  {
    var d := Decimal(i);
    DecimalRoundTrip(i);
    if |d| < 3 {
      LeadingZeros("000"[..3 - |d|], d);
    }
  }

  /** The file name an entry is downloaded to: `f"{i:03d}_{title}.mp3"`. */
  function ItemFileName(i: nat, title: string): string {
    IndexPrefix(i) + "_" + title + ".mp3"
  }

  /** Reads the index back from an item file name: the digits before the
      first `_`. */
  function IndexOfItemName(name: string): Option<nat> {
    var u := IndexOf(name, "_", 0);
    if u >= 0 && forall k :: 0 <= k < u ==> IsDigit(name[k]) then Some(ValueOf(name[..u]))
    else None
  }

  /** The index prefix keeps the archive's members apart and in order: the
      index is recovered from every item file name. */
  lemma ItemNameRoundTrip(i: nat, title: string)
    ensures IndexOfItemName(ItemFileName(i, title)) == Some(i)
  {
    var p := IndexPrefix(i);
    var name := ItemFileName(i, title);
    assert name[|p|..|p| + 1] == "_";
    assert OccursAt(name, "_", |p|);
    var u := IndexOf(name, "_", 0);
    assert 0 <= u <= |p|;
    assert name[u..u + 1] == "_";
    assert !IsDigit(name[u]);
    assert forall k :: 0 <= k < |p| ==> name[k] == p[k] && IsDigit(name[k]);
    assert u == |p|;
    assert name[..u] == p;
    IndexPrefixRoundTrip(i);
  }

  // ----- The per-entry loop -----

  /** A playlist entry of the flat listing; a missing key is `None`. */
  datatype Entry = Entry(url: Option<string>, webpageUrl: Option<string>, id: Option<string>, title: Option<string>)

  /** The outcome of downloading one entry. */
  datatype ItemOutcome = Downloaded(path: string) | Failed(message: string)

  function Truthy(o: Option<string>): bool { o.Some? && o.value != "" }

  /** The (url, output path) entry `i` is downloaded with, or `None` when the
      loop moves on without a download: no url and not YouTube, or a key the
      code reads (`id` for the rebuilt URL, `title` for the path) is missing. */
  function Attempt(i: nat, e: Entry, isYouTube: bool, playlistDir: string): (r: Option<(string, string)>)
    ensures r.Some? <==> Attempted(e, isYouTube)
    ensures r.Some? ==> r.value.1 == JoinPath(playlistDir, ItemFileName(i, e.title.value))
    ensures Truthy(e.url) && e.title.Some? ==> r == Some((e.url.value, JoinPath(playlistDir, ItemFileName(i, e.title.value))))
    ensures !Truthy(e.url) && Truthy(e.webpageUrl) && e.title.Some? ==>
              r == Some((e.webpageUrl.value, JoinPath(playlistDir, ItemFileName(i, e.title.value))))
    ensures !Truthy(e.url) && !Truthy(e.webpageUrl) && isYouTube && e.id.Some? && e.title.Some? ==>
              r == Some((WatchUrl(e.id.value), JoinPath(playlistDir, ItemFileName(i, e.title.value))))
  {
    var url :=
      if Truthy(e.url) then Some(e.url.value)
      else if Truthy(e.webpageUrl) then Some(e.webpageUrl.value)
      else if isYouTube && e.id.Some? then Some(WatchUrl(e.id.value))
      else None;
    if url.Some? && e.title.Some? then Some((url.value, JoinPath(playlistDir, ItemFileName(i, e.title.value))))
    else None
  }

  /** The loop downloads entry `e`: it has a title, and a url of its own or,
      on YouTube, an id to rebuild one from. */
  predicate Attempted(e: Entry, isYouTube: bool) {
    e.title.Some? && (Truthy(e.url) || Truthy(e.webpageUrl) || (isYouTube && e.id.Some?))
  }

  const WatchPrefix := "https://www.youtube.com/watch?v="

  /** The YouTube page of a video id, rebuilt for an entry without a url. */
  function WatchUrl(id: string): string {
    WatchPrefix + id
  }

  /** The video id a watch URL names, or `None` for another URL. */
  function VideoIdOf(url: string): Option<string> {
    if StartsWith(url, WatchPrefix) then Some(url[|WatchPrefix|..]) else None
  }

  /** A rebuilt watch URL names the entry's own id. */
  lemma WatchUrlReadsBack(id: string)
    ensures VideoIdOf(WatchUrl(id)) == Some(id)
  {
    PrefixStarts(WatchPrefix, id);
    assert WatchUrl(id)[|WatchPrefix|..] == id;
  }

  /** The platform decides an entry only when the entry has no url of its
      own: then a YouTube playlist rebuilds one from the id and any other
      playlist skips the entry. */
  lemma AttemptPlatformMatters(i: nat, e: Entry, playlistDir: string)
    ensures Attempt(i, e, true, playlistDir) != Attempt(i, e, false, playlistDir) <==>
              !Truthy(e.url) && !Truthy(e.webpageUrl) && e.id.Some? && e.title.Some?
    ensures Attempt(i, e, false, playlistDir).Some? ==> Attempt(i, e, true, playlistDir) == Attempt(i, e, false, playlistDir)
  {
  }

  /** The paths collected by the loop over the first `n` entries, in entry
      order: one for each entry that was attempted and succeeded. */
  function Successes(entries: seq<Entry>, outcomes: seq<ItemOutcome>, isYouTube: bool, n: nat): seq<string>
    requires n <= |entries| && n <= |outcomes|
  {
    if n == 0 then [] else Successes(entries, outcomes, isYouTube, n - 1) + Collected(entries, outcomes, isYouTube, n - 1)
  }

  /** What the loop appends for entry `i`: its file when it was attempted and
      downloaded, nothing otherwise. */
  function Collected(entries: seq<Entry>, outcomes: seq<ItemOutcome>, isYouTube: bool, i: nat): seq<string>
    requires i < |entries| && i < |outcomes|
  {
    if Attempted(entries[i], isYouTube) && outcomes[i].Downloaded? then [outcomes[i].path] else []
  }

  /** Entry `i` was attempted and its download produced `p`. */
  predicate Produced(entries: seq<Entry>, outcomes: seq<ItemOutcome>, isYouTube: bool, i: nat, p: string)
    requires i < |entries| && i < |outcomes|
  {
    Attempted(entries[i], isYouTube) && outcomes[i] == Downloaded(p)
  }

  /** A path is collected exactly when some attempted entry produced it. */
  lemma {:induction false} SuccessesMembership(entries: seq<Entry>, outcomes: seq<ItemOutcome>, isYouTube: bool, n: nat, p: string)
    requires n <= |entries| && n <= |outcomes|
    ensures p in Successes(entries, outcomes, isYouTube, n) <==>
              exists i :: 0 <= i < n && Produced(entries, outcomes, isYouTube, i, p)
  {
    if n > 0 {
      SuccessesMembership(entries, outcomes, isYouTube, n - 1, p);
      LastEntryMembership(entries, outcomes, isYouTube, n, p);
      ProducedAmongFirst(entries, outcomes, isYouTube, n, p);
    }
  }

  /** The last of `n` entries adds its own file and nothing else. */
  lemma LastEntryMembership(entries: seq<Entry>, outcomes: seq<ItemOutcome>, isYouTube: bool, n: nat, p: string)
    requires 0 < n <= |entries| && n <= |outcomes|
    ensures p in Successes(entries, outcomes, isYouTube, n) <==>
              || p in Successes(entries, outcomes, isYouTube, n - 1)
              || Produced(entries, outcomes, isYouTube, n - 1, p)
  {
  }

  /** Some of the first `n` entries produced `p` exactly when one of the first
      `n - 1` did or the last one did. */
  lemma ProducedAmongFirst(entries: seq<Entry>, outcomes: seq<ItemOutcome>, isYouTube: bool, n: nat, p: string)
    requires 0 < n <= |entries| && n <= |outcomes|
    ensures (exists i :: 0 <= i < n && Produced(entries, outcomes, isYouTube, i, p)) <==>
              || (exists i :: 0 <= i < n - 1 && Produced(entries, outcomes, isYouTube, i, p))
              || Produced(entries, outcomes, isYouTube, n - 1, p)
  {
    if exists i :: 0 <= i < n && Produced(entries, outcomes, isYouTube, i, p) {
      var i :| 0 <= i < n && Produced(entries, outcomes, isYouTube, i, p);
      if i < n - 1 {
        assert 0 <= i < n - 1 && Produced(entries, outcomes, isYouTube, i, p);
      }
    }
    if exists i :: 0 <= i < n - 1 && Produced(entries, outcomes, isYouTube, i, p) {
      var i :| 0 <= i < n - 1 && Produced(entries, outcomes, isYouTube, i, p);
      assert 0 <= i < n && Produced(entries, outcomes, isYouTube, i, p);
    }
    if Produced(entries, outcomes, isYouTube, n - 1, p) {
      assert 0 <= n - 1 < n;
    }
  }

  /** Partial-failure tolerance: making one entry fail costs at most that
      entry's file; every other file is still collected. */
  lemma OneFailureCostsOneItem(entries: seq<Entry>, outcomes: seq<ItemOutcome>, isYouTube: bool, n: nat, k: nat, msg: string)
    requires n <= |entries| && n <= |outcomes| && k < |outcomes|
    ensures var before := Successes(entries, outcomes, isYouTube, n);
            var after := Successes(entries, outcomes[k := Failed(msg)], isYouTube, n);
            |after| + 1 >= |before| && multiset(after) <= multiset(before)
  {
    if k < n {
      FailureCostsItsFile(entries, outcomes, isYouTube, n, k, msg);
      var prefix := Successes(entries, outcomes, isYouTube, k);
      var own := Collected(entries, outcomes, isYouTube, k);
      var rest := Between(entries, outcomes, isYouTube, k + 1, n);
      assert multiset(prefix + own + rest) == multiset(prefix + rest) + multiset(own);
    } else {
      OnlyEarlierEntriesDiffer(entries, outcomes, isYouTube, n, k, msg);
    }
  }

  /** The paths collected for entries `lo` up to `n`, in entry order. */
  function Between(entries: seq<Entry>, outcomes: seq<ItemOutcome>, isYouTube: bool, lo: nat, n: nat): seq<string>
    requires lo <= n <= |entries| && n <= |outcomes|
    decreases n - lo
  {
    if n == lo then [] else Between(entries, outcomes, isYouTube, lo, n - 1) + Collected(entries, outcomes, isYouTube, n - 1)
  }

  /** Making entry k fail removes exactly the file entry k produced, if any,
      and keeps every other collected file in its place. */
  lemma {:induction false} FailureCostsItsFile(entries: seq<Entry>, outcomes: seq<ItemOutcome>, isYouTube: bool, n: nat, k: nat, msg: string)
    requires k < n <= |entries| && n <= |outcomes|
    ensures Successes(entries, outcomes, isYouTube, n)
         == Successes(entries, outcomes, isYouTube, k) + Collected(entries, outcomes, isYouTube, k)
            + Between(entries, outcomes, isYouTube, k + 1, n)
    ensures Successes(entries, outcomes[k := Failed(msg)], isYouTube, n)
         == Successes(entries, outcomes, isYouTube, k) + Between(entries, outcomes, isYouTube, k + 1, n)
  {
    var failed := outcomes[k := Failed(msg)];
    if n - 1 == k {
      OnlyEarlierEntriesDiffer(entries, outcomes, isYouTube, k, k, msg);
      assert Collected(entries, failed, isYouTube, k) == [];
    } else {
      FailureCostsItsFile(entries, outcomes, isYouTube, n - 1, k, msg);
      var last := Collected(entries, outcomes, isYouTube, n - 1);
      assert Collected(entries, failed, isYouTube, n - 1) == last by {
        assert failed[n - 1] == outcomes[n - 1];
      }
      var prefix := Successes(entries, outcomes, isYouTube, k);
      var own := Collected(entries, outcomes, isYouTube, k);
      var rest := Between(entries, outcomes, isYouTube, k + 1, n - 1);
      assert prefix + own + rest + last == prefix + own + (rest + last);
      assert prefix + rest + last == prefix + (rest + last);
    }
  }

  /** Before entry k is reached, making it fail changes nothing. */
  lemma {:induction false} OnlyEarlierEntriesDiffer(entries: seq<Entry>, outcomes: seq<ItemOutcome>, isYouTube: bool, n: nat, k: nat, msg: string)
    requires n <= k < |outcomes| && n <= |entries|
    ensures Successes(entries, outcomes[k := Failed(msg)], isYouTube, n)
         == Successes(entries, outcomes, isYouTube, n)
  {
    if n > 0 {
      OnlyEarlierEntriesDiffer(entries, outcomes, isYouTube, n - 1, k, msg);
    }
  }

  /** The record written before entry `i` of `total`. */
  function StepRecord(i: nat, total: nat): (r: Record)
    requires i < total
    ensures r.Keys == {"percent", "status", "message"}
    ensures r["percent"] == Num(StepPercent(i, total)) && 0.0 <= r["percent"].n < 100.0
    ensures Status(r) == "downloading" && !IsTerminal(r)
  {
    StepPercentBounds(i, total);
    map["percent" := Num(StepPercent(i, total)),
        "status" := Str("downloading"),
        "message" := Str("Téléchargement piste " + Decimal(i + 1) + "/" + Decimal(total))]
  }

  /** `(i / total_items) * 100`. */
  function StepPercent(i: nat, total: nat): real
    requires i < total
  {
    (i as real / total as real) * 100.0
  }

  lemma StepPercentBounds(i: nat, total: nat)
    requires i < total
    ensures StepPercent(i, total) * (total as real) == (i as real) * 100.0
    ensures 0.0 <= StepPercent(i, total) < 100.0
  {
    var t := total as real;
    var ratio := i as real / t;
    assert ratio * t == i as real;
    assert StepPercent(i, total) * t == (ratio * t) * 100.0;
    assert 0.0 <= ratio;
    MulCancel(StepPercent(i, total), 100.0, t);
  }

  /** Later entries report a larger percentage. */
  lemma StepPercentIncreases(i: nat, j: nat, total: nat)
    requires i < j < total
    ensures StepRecord(i, total)["percent"].n < StepRecord(j, total)["percent"].n
  {
    StepPercentBounds(i, total);
    StepPercentBounds(j, total);
    var pi, pj := StepPercent(i, total), StepPercent(j, total);
    assert pi * (total as real) < pj * (total as real);
    MulCancel(pi, pj, total as real);
  }

  /** Multiplying by a positive factor keeps a strict order. */
  lemma MulCancel(a: real, b: real, t: real)
    requires t > 0.0 && a * t < b * t
    ensures a < b
  {
  }

  /** The records written before the first `n` of `total` entries, in order. */
  function StepRecords(n: nat, total: nat): (rs: seq<Record>)
    requires n <= total
    ensures |rs| == n
    ensures forall i :: 0 <= i < n ==> rs[i] == StepRecord(i, total)
  {
    if n == 0 then [] else StepRecords(n - 1, total) + [StepRecord(n - 1, total)]
  }

  /** The loop of `process_playlist` over the listed entries: the progress
      record is replaced before each entry, each entry is downloaded or
      skipped, and a failure moves on to the next entry. Item downloads are
      called without a progress id, so only the loop writes the record. */
  method DownloadEntries(entries: seq<Entry>, outcomes: seq<ItemOutcome>, isYouTube: bool,
                         playlistDir: string, store: ProgressStore?, progressId: Option<string>)
    returns (downloaded: seq<string>, ghost writes: seq<Record>)
    requires |outcomes| == |entries|
    modifies store
    ensures downloaded == Successes(entries, outcomes, isYouTube, |entries|)
    ensures writes == if store != null && Tracked(progressId) then StepRecords(|entries|, |entries|) else []
    ensures store != null ==>
              store.jobs == if Tracked(progressId) && |entries| > 0
                            then old(store.jobs)[progressId.value := StepRecord(|entries| - 1, |entries|)]
                            else old(store.jobs)
  {
    var total := |entries|;
    downloaded := [];
    writes := [];
    ghost var before := if store != null then store.jobs else map[];
    for i := 0 to total
      invariant downloaded == Successes(entries, outcomes, isYouTube, i)
      invariant writes == if store != null && Tracked(progressId) then StepRecords(i, total) else []
      invariant store != null ==>
                  store.jobs == if Tracked(progressId) && i > 0
                                then before[progressId.value := StepRecord(i - 1, total)]
                                else before
    {
      if Tracked(progressId) && store != null {
        if i > 0 {
          Overwrite(before, progressId.value, StepRecord(i - 1, total), StepRecord(i, total));
        }
        store.Put(progressId.value, StepRecord(i, total));
        writes := writes + [StepRecord(i, total)];
      }
      var target := Attempt(i, entries[i], isYouTube, playlistDir);
      if target.Some? {
        var outcome := outcomes[i];
        if outcome.Downloaded? {
          downloaded := downloaded + [outcome.path];
        }
      }
    }
  }

  /** A second write to the same job replaces the first. */
  lemma Overwrite(m: map<string, Record>, id: string, first: Record, second: Record)
    ensures m[id := first][id := second] == m[id := second]
  {
  }

  /** The playlist's archive path and display name once the loop is over; an
      empty result is an error. */
  function Finish(uploadFolder: string, playlistName: string, downloaded: seq<string>): (r: Result<(string, string)>)
    ensures r.Err? <==> downloaded == []
    ensures r.Err? ==> r.msg == EmptyPlaylistMessage
    ensures r.Ok? ==> r.value.0 == JoinPath(uploadFolder, playlistName + "_compress.zip")
    ensures r.Ok? ==> r.value.1 == RemoveAll(playlistName + "_compress.zip", ".zip")
  {
    if downloaded == [] then Err(EmptyPlaylistMessage)
    else
      var zipFilename := playlistName + "_compress.zip";
      Ok((JoinPath(uploadFolder, zipFilename), RemoveAll(zipFilename, ".zip")))
  }

  /** For a playlist name without a dot, the display name of the archive is
      the name with `_compress` appended: only the final `.zip` is removed. */
  lemma FinishDisplayName(uploadFolder: string, playlistName: string, downloaded: seq<string>)
    requires downloaded != [] && '.' !in playlistName
    ensures Finish(uploadFolder, playlistName, downloaded) ==
              Ok((JoinPath(uploadFolder, playlistName + "_compress.zip"), playlistName + "_compress"))
  {
    var stem := playlistName + "_compress";
    assert stem + ".zip" == playlistName + "_compress.zip";
    assert '.' !in stem by {
      forall i | 0 <= i < |stem| ensures stem[i] != '.' {
        if i >= |playlistName| {
          assert stem[i] == "_compress"[i - |playlistName|];
        }
      }
    }
    RemoveAllTrailing(stem, ".zip");
  }

  const SpotdlMissingMessage := "spotdl n'est pas installé."
  const SpotdlErrorPrefix := "Erreur spotdl: "
  const NoMp3FoundMessage := "Aucun fichier MP3 trouvé."

  /** What the Spotify batch path is given: whether spotdl can be imported,
      the outcome of the FFmpeg lookup, the exit code and error output of the
      spotdl run, and the names in the playlist directory afterwards. */
  datatype SpotifyBatch = SpotifyBatch(installed: bool, ffmpeg: Result<string>, returnCode: int,
                                       stderr: string, listing: seq<string>)

  /** The record written when the Spotify batch starts. */
  function BatchStartRecord(playlistName: string): (r: Record)
    ensures "percent" in r && r["percent"] == Num(0.0)
    ensures Status(r) == "downloading" && !IsTerminal(r)
  {
    map["percent" := Num(0.0), "status" := Str("downloading"),
        "message" := Str("Démarrage du téléchargement de la playlist \"" + playlistName + "\"...")]
  }

  /** The `.mp3` names of a directory listing, joined to the directory, in
      listing order. */
  function Mp3Files(dir: string, listing: seq<string>): (files: seq<string>)
    ensures |files| <= |listing|
    ensures forall f :: f in files <==> exists n :: n in listing && EndsWith(n, ".mp3") && f == JoinPath(dir, n)
  {
    if listing == [] then []
    else
      var init := Mp3Files(dir, listing[..|listing| - 1]);
      var n := listing[|listing| - 1];
      assert listing == listing[..|listing| - 1] + [n];
      init + (if EndsWith(n, ".mp3") then [JoinPath(dir, n)] else [])
  }

  /** The Spotify batch path once the start record is written: FFmpeg, then
      spotdl's exit code, then the `.mp3` files it left. */
  function SpotifyBatchResult(uploadFolder: string, playlistName: string, playlistDir: string, batch: SpotifyBatch): (r: Result<(string, string)>)
    requires batch.installed
    ensures batch.ffmpeg.Err? ==> r == Err(batch.ffmpeg.msg)
    ensures batch.ffmpeg.Ok? && batch.returnCode != 0 ==> r == Err(SpotdlErrorPrefix + batch.stderr)
    ensures batch.ffmpeg.Ok? && batch.returnCode == 0 ==>
              (r.Err? <==> forall n :: n in batch.listing ==> !EndsWith(n, ".mp3"))
    ensures batch.ffmpeg.Ok? && batch.returnCode == 0 && r.Err? ==> r.msg == NoMp3FoundMessage
    ensures r.Ok? ==> r == Finish(uploadFolder, playlistName, Mp3Files(playlistDir, batch.listing))
  {
    if batch.ffmpeg.Err? then Err(batch.ffmpeg.msg)
    else if batch.returnCode != 0 then Err(SpotdlErrorPrefix + batch.stderr)
    else
      var files := Mp3Files(playlistDir, batch.listing);
      if files == [] then
        assert forall n :: n in batch.listing && EndsWith(n, ".mp3") ==> JoinPath(playlistDir, n) in files;
        Err(NoMp3FoundMessage)
      else
        assert files[0] in files;
        Finish(uploadFolder, playlistName, files)
  }

  /** The record `process_playlist` leaves in the progress table when the job
      is tracked: the start record of the Spotify batch, or on the YouTube and
      SoundCloud path the record written before the last entry; `None` when
      it writes none. */
  function LastWritten(rawTitle: string, sourceType: string, batch: SpotifyBatch, listing: Result<Option<seq<Entry>>>): (r: Option<Record>)
    ensures r.Some? ==> !IsTerminal(r.value) && Status(r.value) == "downloading"
    ensures sourceType == "spotify" ==> (r.Some? <==> batch.installed)
    ensures sourceType != "spotify" ==>
              (r.Some? <==> (sourceType == "youtube" || sourceType == "soundcloud") && HasEntries(listing))
  {
    if sourceType == "spotify" then
      if batch.installed then Some(BatchStartRecord(PlaylistName(rawTitle))) else None
    else if (sourceType == "youtube" || sourceType == "soundcloud") && HasEntries(listing) then
      Some(StepRecord(|listing.value.value| - 1, |listing.value.value|))
    else None
  }

  /** The listing was read, has an `entries` key, and lists at least one
      entry. */
  predicate HasEntries(listing: Result<Option<seq<Entry>>>) {
    listing.Ok? && listing.value.Some? && listing.value.value != []
  }

  /** `process_playlist`: `listing` is what `extract_info` returns for a
      YouTube or SoundCloud playlist: `Err` when it raises, `Ok(None)` when
      the information has no `entries` key, and otherwise the flat list of
      entries; `outcomes` is the result of each item download, and `batch`
      what the Spotify path is given. */
  method ProcessPlaylist(uploadFolder: string, tempId: string, rawTitle: string, sourceType: string,
                         batch: SpotifyBatch, listing: Result<Option<seq<Entry>>>, outcomes: seq<ItemOutcome>,
                         store: ProgressStore?, progressId: Option<string>)
    returns (r: Result<(string, string)>)
    requires listing.Ok? && listing.value.Some? ==> |outcomes| == |listing.value.value|
    modifies store
    ensures sourceType == "spotify" && !batch.installed ==> r == Err(SpotdlMissingMessage)
    ensures sourceType == "spotify" && batch.installed ==>
              var name := PlaylistName(rawTitle);
              r == SpotifyBatchResult(uploadFolder, name, JoinPath(JoinPath(uploadFolder, tempId), name), batch)
    ensures sourceType != "spotify" && sourceType != "youtube" && sourceType != "soundcloud" ==>
              r == Err(UnsupportedMessage)
    ensures (sourceType == "youtube" || sourceType == "soundcloud") && listing.Err? ==> r == Err(listing.msg)
    ensures (sourceType == "youtube" || sourceType == "soundcloud") && listing == Ok(None) ==> r == Err(NoEntriesMessage)
    ensures (sourceType == "youtube" || sourceType == "soundcloud") && listing.Ok? && listing.value.Some? ==>
              r == Finish(uploadFolder, PlaylistName(rawTitle),
                          Successes(listing.value.value, outcomes, sourceType == "youtube", |listing.value.value|))
    ensures store != null ==>
              store.jobs == if Tracked(progressId) && LastWritten(rawTitle, sourceType, batch, listing).Some?
                            then old(store.jobs)[progressId.value := LastWritten(rawTitle, sourceType, batch, listing).value]
                            else old(store.jobs)
  {
    var name := PlaylistName(rawTitle);
    var playlistDir := JoinPath(JoinPath(uploadFolder, tempId), name);
    ghost var written := LastWritten(rawTitle, sourceType, batch, listing);
    if sourceType == "spotify" {
      assert written == if batch.installed then Some(BatchStartRecord(name)) else None;
      r := RunSpotifyBatch(uploadFolder, name, playlistDir, batch, store, progressId);
    } else if sourceType != "youtube" && sourceType != "soundcloud" {
      assert written == None;
      r := Err(UnsupportedMessage);
    } else {
      assert written == if HasEntries(listing)
                        then Some(StepRecord(|listing.value.value| - 1, |listing.value.value|)) else None;
      r := RunEntries(uploadFolder, name, playlistDir, sourceType == "youtube", listing, outcomes, store, progressId);
    }
  }

  /** The Spotify branch of `process_playlist`: a missing spotdl is reported
      before anything is written; otherwise the start record is written and
      the batch runs. */
  method RunSpotifyBatch(uploadFolder: string, name: string, playlistDir: string, batch: SpotifyBatch,
                         store: ProgressStore?, progressId: Option<string>)
    returns (r: Result<(string, string)>)
    modifies store
    ensures !batch.installed ==> r == Err(SpotdlMissingMessage)
    ensures batch.installed ==> r == SpotifyBatchResult(uploadFolder, name, playlistDir, batch)
    ensures store != null ==>
              store.jobs == if batch.installed && Tracked(progressId)
                            then old(store.jobs)[progressId.value := BatchStartRecord(name)]
                            else old(store.jobs)
  {
    if !batch.installed {
      return Err(SpotdlMissingMessage);
    }
    if Tracked(progressId) && store != null {
      store.Put(progressId.value, BatchStartRecord(name));
    }
    r := SpotifyBatchResult(uploadFolder, name, playlistDir, batch);
  }

  /** The YouTube and SoundCloud branch of `process_playlist`: a failed
      listing raises its error and a listing without entries is an error,
      both before anything is written; otherwise the entries are downloaded
      and the collected files decide the result. */
  method RunEntries(uploadFolder: string, name: string, playlistDir: string, isYouTube: bool,
                    listing: Result<Option<seq<Entry>>>, outcomes: seq<ItemOutcome>,
                    store: ProgressStore?, progressId: Option<string>)
    returns (r: Result<(string, string)>)
    requires listing.Ok? && listing.value.Some? ==> |outcomes| == |listing.value.value|
    modifies store
    ensures listing.Err? ==> r == Err(listing.msg)
    ensures listing == Ok(None) ==> r == Err(NoEntriesMessage)
    ensures listing.Ok? && listing.value.Some? ==>
              r == Finish(uploadFolder, name, Successes(listing.value.value, outcomes, isYouTube, |listing.value.value|))
    ensures store != null ==>
              store.jobs == if Tracked(progressId) && HasEntries(listing)
                            then old(store.jobs)[progressId.value := StepRecord(|listing.value.value| - 1, |listing.value.value|)]
                            else old(store.jobs)
  {
    if listing.Err? {
      return Err(listing.msg);
    }
    if listing.value.None? {
      return Err(NoEntriesMessage);
    }
    var entries := listing.value.value;
    var downloaded, _ := DownloadEntries(entries, outcomes, isYouTube, playlistDir, store, progressId);
    r := Finish(uploadFolder, name, downloaded);
  }
}
