/** The two sweeps of intermediate download files (downloader.py,
    `cleanup_temp_files` and `cleanup_all_temp_files`). A directory is modelled
    by its listing; `undeletable` holds the entries whose removal fails (the
    error is printed and swallowed) or, for the general sweep, that are not
    regular files. */
module TempFiles {
  import opened Text

  /** The extensions the per-download sweep removes. `.mp3` is not one of them. */
  const TempExtensions: seq<string> :=
    [".m4a", ".webm", ".mp4", ".opus", ".ogg", ".flac", ".wav", ".mkv", ".avi"]

  /** The extensions the directory-wide sweep removes: the same nine plus the
      partial-download markers. */
  const AllTempExtensions: seq<string> := TempExtensions + [".part", ".ytdl"]

  /** Python's `any(name.endswith(ext) for ext in exts)`. */
  predicate EndsWithAny(name: string, exts: seq<string>) {
    exists k :: 0 <= k < |exts| && EndsWith(name, exts[k])
  }

  /** Chosen by `cleanup_temp_files`: the name starts with the base name of the
      download and has a temporary extension. */
  predicate IsStemTemp(name: string, baseName: string) {
    StartsWith(name, baseName) && EndsWithAny(name, TempExtensions)
  }

  /** Chosen by `cleanup_all_temp_files`: the extension alone decides. */
  predicate IsAnyTemp(name: string) {
    EndsWithAny(name, AllTempExtensions)
  }

  /** The listing after a sweep that removes the `selected` entries, except the
      `undeletable` ones. */
  function Survivors(listing: seq<string>, selected: string -> bool, undeletable: set<string>): seq<string> {
    if listing == [] then []
    else
      var last := listing[|listing| - 1];
      Survivors(listing[..|listing| - 1], selected, undeletable)
        + (if selected(last) && last !in undeletable then [] else [last])
  }

  /** An entry survives exactly when it is not selected or cannot be removed. */
  lemma {:induction false} SurvivorsMembership(listing: seq<string>, selected: string -> bool, undeletable: set<string>, x: string)
    ensures x in Survivors(listing, selected, undeletable) <==>
              x in listing && (!selected(x) || x in undeletable)
  {
    if listing != [] {
      var init := listing[..|listing| - 1];
      SurvivorsMembership(init, selected, undeletable, x);
      assert listing == init + [listing[|listing| - 1]];
    }
  }

  /** A sweep keeps the survivors in their listing order: the result is the
      listing with some entries taken out. */
  lemma {:induction false} SurvivorsSubMultiset(listing: seq<string>, selected: string -> bool, undeletable: set<string>)
    ensures |Survivors(listing, selected, undeletable)| <= |listing|
    ensures multiset(Survivors(listing, selected, undeletable)) <= multiset(listing)
  {
    if listing != [] {
      var init := listing[..|listing| - 1];
      SurvivorsSubMultiset(init, selected, undeletable);
      assert listing == init + [listing[|listing| - 1]];
    }
  }

  method CleanupTempFiles(listing: seq<string>, basePath: string, undeletable: set<string>)
    returns (remaining: seq<string>)
    ensures remaining == Survivors(listing, name => IsStemTemp(name, Basename(basePath)), undeletable)
  {
    var baseName := Basename(basePath);
    remaining := [];
    for i := 0 to |listing|
      invariant remaining == Survivors(listing[..i], name => IsStemTemp(name, baseName), undeletable)
    {
      var file := listing[i];
      assert listing[..i + 1][..i] == listing[..i];
      if !(IsStemTemp(file, baseName) && file !in undeletable) {
        remaining := remaining + [file];
      }
    }
    assert listing[..|listing|] == listing;
  }

  method CleanupAllTempFiles(listing: seq<string>, undeletable: set<string>)
    returns (remaining: seq<string>)
    ensures remaining == Survivors(listing, IsAnyTemp, undeletable)
  {
    remaining := [];
    for i := 0 to |listing|
      invariant remaining == Survivors(listing[..i], IsAnyTemp, undeletable)
    {
      var file := listing[i];
      assert listing[..i + 1][..i] == listing[..i];
      if !(IsAnyTemp(file) && file !in undeletable) {
        remaining := remaining + [file];
      }
    }
    assert listing[..|listing|] == listing;
  }

  /** A finished `.mp3` is never taken by either sweep: no temporary extension
      is a suffix of a name ending in `.mp3`. */
  lemma Mp3NeverTemp(name: string, baseName: string)
    requires EndsWith(name, ".mp3")
    ensures !IsStemTemp(name, baseName) && !IsAnyTemp(name)
  {
    assert name[|name| - 1] == '3';
    forall k | 0 <= k < |AllTempExtensions| ensures !EndsWith(name, AllTempExtensions[k]) {
      var ext := AllTempExtensions[k];
      assert ext[|ext| - 1] != '3';
    }
    assert forall k :: 0 <= k < |TempExtensions| ==> TempExtensions[k] == AllTempExtensions[k];
  }

  /** Whatever the per-download sweep removes, the directory-wide sweep removes
      too: every entry the latter keeps is kept by the former. */
  lemma StemSweepWithinGeneral(listing: seq<string>, baseName: string, undeletable: set<string>, x: string)
    requires x in Survivors(listing, IsAnyTemp, undeletable)
    ensures x in Survivors(listing, name => IsStemTemp(name, baseName), undeletable)
  {
    SurvivorsMembership(listing, IsAnyTemp, undeletable, x);
    SurvivorsMembership(listing, name => IsStemTemp(name, baseName), undeletable, x);
    if IsStemTemp(x, baseName) {
      var k :| 0 <= k < |TempExtensions| && EndsWith(x, TempExtensions[k]);
      assert AllTempExtensions[k] == TempExtensions[k];
    }
  }

  /** The per-download sweep spares every name that does not start with the
      base name, whatever its extension (partial downloads of other jobs). */
  lemma OtherStemsSurvive(listing: seq<string>, baseName: string, undeletable: set<string>, x: string)
    requires x in listing && !StartsWith(x, baseName)
    ensures x in Survivors(listing, name => IsStemTemp(name, baseName), undeletable)
  {
    SurvivorsMembership(listing, name => IsStemTemp(name, baseName), undeletable, x);
  }
}
