/** Locating the file a download produced and naming it (downloader.py,
    shared by `download_youtube`, `download_soundcloud` and
    `download_instagram`). A directory listing is a sequence of (name,
    modification time) pairs in `os.listdir` order. */
module Output {
  import opened Wrappers
  import opened Text
  import opened Sanitize

  const NoMp3Message := "Fichier MP3 non créé après conversion"

  /** `output_path.replace('.mp3', '')`: the engine's output template stem. */
  function BasePath(outputPath: string): string {
    RemoveAll(outputPath, ".mp3")
  }

  /** A listing entry the fallback may pick: same stem, `.mp3` extension. */
  predicate IsCandidate(name: string, stem: string) {
    StartsWith(name, stem) && EndsWith(name, ".mp3")
  }

  /** Entry `i` heads the candidates sorted by modification time, newest
      first: Python's sort is stable, so among equally new candidates the
      first in listing order wins. */
  ghost predicate IsNewest(listing: seq<(string, int)>, stem: string, i: int) {
    && 0 <= i < |listing| && IsCandidate(listing[i].0, stem)
    && (forall j :: 0 <= j < |listing| && IsCandidate(listing[j].0, stem) ==> listing[j].1 <= listing[i].1)
    && (forall j :: 0 <= j < i && IsCandidate(listing[j].0, stem) ==> listing[j].1 < listing[i].1)
  }

  /** At most one entry heads the sorted candidates. */
  lemma NewestUnique(listing: seq<(string, int)>, stem: string, i: int, k: int)
    requires IsNewest(listing, stem, i) && IsNewest(listing, stem, k)
    ensures i == k
  {
  }

  /** Finds the head of the candidates sorted newest first, or `None` when no
      entry is a candidate. */
  method NewestCandidate(listing: seq<(string, int)>, stem: string) returns (best: Option<nat>)
    ensures best.None? <==> forall j :: 0 <= j < |listing| ==> !IsCandidate(listing[j].0, stem)
    ensures best.Some? ==> IsNewest(listing, stem, best.value)
  {
    best := None;
    for i := 0 to |listing|
      invariant best.None? <==> forall j :: 0 <= j < i ==> !IsCandidate(listing[j].0, stem)
      invariant best.Some? ==> best.value < i && IsCandidate(listing[best.value].0, stem)
      invariant best.Some? ==> forall j :: 0 <= j < i && IsCandidate(listing[j].0, stem) ==>
                                 listing[j].1 <= listing[best.value].1
      invariant best.Some? ==> forall j :: 0 <= j < best.value && IsCandidate(listing[j].0, stem) ==>
                                 listing[j].1 < listing[best.value].1
    {
      if IsCandidate(listing[i].0, stem) && (best.None? || listing[i].1 > listing[best.value].1) {
        best := Some(i);
      }
    }
  }

  /** The produced file: the expected path if it exists, else the newest `.mp3`
      of its directory that starts with the expected stem, else an error. */
  method ResolveOutput(outputPath: string, outputExists: bool, listing: seq<(string, int)>)
    returns (r: Result<string>)
    ensures outputExists ==> r == Ok(outputPath)
    ensures !outputExists ==>
              (r.Err? <==> forall j :: 0 <= j < |listing| ==> !IsCandidate(listing[j].0, Basename(BasePath(outputPath))))
    ensures r.Err? ==> r.msg == NoMp3Message
    ensures !outputExists && r.Ok? ==>
              exists i :: IsNewest(listing, Basename(BasePath(outputPath)), i)
                          && r.value == JoinPath(Dirname(outputPath), listing[i].0)
  {
    if outputExists {
      return Ok(outputPath);
    }
    var stem := Basename(BasePath(outputPath));
    var best := NewestCandidate(listing, stem);
    if best.None? {
      return Err(NoMp3Message);
    }
    r := Ok(JoinPath(Dirname(outputPath), listing[best.value].0));
  }

  /** `final_filename`: the sanitised custom name when one is given (a
      non-empty string), otherwise the sanitised title, which defaults to the
      strategy's generic title when the metadata has none. */
  function DisplayName(custom: Option<string>, title: Option<string>, defaultTitle: string): (r: string)
    ensures IsClean(r)
    ensures custom.Some? && custom.value != "" ==> r == SanitizeFilename(custom.value)
    ensures (custom.None? || custom.value == "") && title.Some? ==> r == SanitizeFilename(title.value)
    ensures (custom.None? || custom.value == "") && title.None? ==> r == SanitizeFilename(defaultTitle)
  {
    if custom.Some? && custom.value != "" then SanitizeFilename(custom.value)
    else SanitizeFilename(if title.Some? then title.value else defaultTitle)
  }
}
