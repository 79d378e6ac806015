/** The conversion job protocol (app.py `convert_video` and its background
    `process_download`): the source detection that admits a request, the
    record a new job starts with, and the single record the job ends with.
    The downloads themselves are opaque outcomes: the playlist archive of
    `process_playlist` and the file of the per-source download function,
    each a path and a display name or an error message. */
module Jobs {
  import opened Wrappers
  import opened Text
  import opened Classify
  import opened Progress
  import opened Output
  import opened Delivery
  import Stream

  const MissingUrlMessage := "URL manquante"
  const UnknownSourceMessage := "Source non reconnue. Veuillez utiliser une URL YouTube, SoundCloud, Spotify ou Instagram."
  const UnsupportedSourceMessage := "Type de source non supporté"

  /** The source types the single-file path has a download function for. */
  predicate IsKnownSource(s: string) {
    s == "youtube" || s == "soundcloud" || s == "spotify" || s == "instagram"
  }

  /** The host ladder of the auto-detection: YouTube, SoundCloud, Spotify,
      Instagram, in that order. */
  function AutoDetect(u: Url): (r: Result<string>)
    ensures r.Ok? ==> IsKnownSource(r.value)
    ensures r == Ok("youtube") <==> IsYouTubeUrl(u)
    ensures r == Ok("soundcloud") <==> !IsYouTubeUrl(u) && IsSoundCloudUrl(u)
    ensures r == Ok("spotify") <==> !IsYouTubeUrl(u) && !IsSoundCloudUrl(u) && IsSpotifyUrl(u)
    ensures r == Ok("instagram") <==>
              !IsYouTubeUrl(u) && !IsSoundCloudUrl(u) && !IsSpotifyUrl(u) && IsInstagramUrl(u)
    ensures r.Err? <==>
              !IsYouTubeUrl(u) && !IsSoundCloudUrl(u) && !IsSpotifyUrl(u) && !IsInstagramUrl(u)
    ensures r.Err? ==> r.msg == UnknownSourceMessage
  {
    if IsYouTubeUrl(u) then Ok("youtube")
    else if IsSoundCloudUrl(u) then Ok("soundcloud")
    else if IsSpotifyUrl(u) then Ok("spotify")
    else if IsInstagramUrl(u) then Ok("instagram")
    else Err(UnknownSourceMessage)
  }

  /** `convert_video`'s admission of a request: `url` is its `url` field,
      `u` that URL parsed, and `requested` its `source_type` field, "auto"
      when absent. An explicit source type is taken as given. */
  function DetectSource(url: Option<string>, u: Url, requested: Option<string>): (r: Result<string>)
    ensures url.None? || url.value == "" ==> r == Err(MissingUrlMessage)
    ensures url.Some? && url.value != "" && requested.Some? && requested.value != "auto" ==>
              r == Ok(requested.value)
    ensures url.Some? && url.value != "" && (requested.None? || requested.value == "auto") ==>
              r == AutoDetect(u)
    ensures r.Err? ==> r.msg == MissingUrlMessage || r.msg == UnknownSourceMessage
  {
    if url.None? || url.value == "" then Err(MissingUrlMessage)
    else if requested.Some? && requested.value != "auto" then Ok(requested.value)
    else AutoDetect(u)
  }

  /** An auto-detected source and the playlist test look at the same host, so
      the detected source decides which marker makes the URL a playlist. */
  lemma {:induction false} DetectedSourceDecidesPlaylistMarker(u: Url)
    requires AutoDetect(u).Ok?
    ensures AutoDetect(u).value == "youtube" ==> (IsPlaylist(u) <==> Contains(u.query, "list="))
    ensures AutoDetect(u).value == "soundcloud" ==> (IsPlaylist(u) <==> Contains(u.path, "/sets/"))
    ensures AutoDetect(u).value == "spotify" ==>
              (IsPlaylist(u) <==> Contains(u.path, "/playlist/") || Contains(u.path, "/album/"))
    ensures AutoDetect(u).value == "instagram" ==> !IsPlaylist(u)
  {
    if AutoDetect(u).value == "instagram" {
      InstagramNeverPlaylist(u);
    }
  }

  /** The record a job is registered with. */
  const StartingRecord: Record := map["percent" := Num(0.0), "status" := Str("starting")]

  /** The record of a finished job: the id to fetch its file with, the name to
      offer, and whether the file is a playlist archive. */
  function CompletedRecord(fileId: string, filename: string, isZip: bool): (r: Record)
    ensures Status(r) == "completed" && IsTerminal(r)
    ensures r.Keys == {"percent", "status", "file_id", "filename", "is_zip"}
    ensures r["percent"] == Num(100.0) && r["file_id"] == Str(fileId)
    ensures r["filename"] == Str(filename) && r["is_zip"] == Flag(isZip)
  {
    map["percent" := Num(100.0), "status" := Str("completed"), "file_id" := Str(fileId),
        "filename" := Str(filename), "is_zip" := Flag(isZip)]
  }

  /** The record of a failed job: the error text and nothing else. */
  function ErrorRecord(msg: string): (r: Record)
    ensures Status(r) == "error" && IsTerminal(r)
    ensures r.Keys == {"status", "message"} && r["message"] == Str(msg)
  {
    map["status" := Str("error"), "message" := Str(msg)]
  }

  /** A job starts out not finished, and neither final record looks like it. */
  lemma StartingIsNotTerminal(fileId: string, filename: string, isZip: bool, msg: string)
    ensures Status(StartingRecord) == "starting" && !IsTerminal(StartingRecord)
    ensures StartingRecord != CompletedRecord(fileId, filename, isZip)
    ensures StartingRecord != ErrorRecord(msg)
  {
    assert "file_id" !in StartingRecord;
    assert "message" !in StartingRecord;
  }

  /** The file id of a playlist archive: its base name with `.zip` removed. */
  function PlaylistFileId(zipPath: string): string {
    RemoveAll(Basename(zipPath), ".zip")
  }

  /** The archive `process_playlist` reports for a playlist name without a
      dot is found again by the file id the job publishes. */
  lemma {:induction false} PlaylistFileIdFindsArchive(playlistName: string)
    requires '/' !in playlistName && '.' !in playlistName
    ensures PlaylistFileId(JoinPath(UploadFolder, playlistName + "_compress.zip")) == playlistName + "_compress"
    ensures ZipPath(PlaylistFileId(JoinPath(UploadFolder, playlistName + "_compress.zip")))
            == JoinPath(UploadFolder, playlistName + "_compress.zip")
  {
    var stem := playlistName + "_compress";
    assert stem + ".zip" == playlistName + "_compress.zip";
    assert '/' !in stem && '.' !in stem by {
      forall i | 0 <= i < |stem| ensures stem[i] != '/' && stem[i] != '.' {
        if i >= |playlistName| {
          assert stem[i] == "_compress"[i - |playlistName|];
        }
      }
    }
    PathsInsideFolder(stem, ".zip");
    RemoveAllTrailing(stem, ".zip");
  }

  /** The file id of the reported path itself: its base name without the
      final `.mp3`, so that `download_file` looks up exactly that path. */
  function SingleFileId(finalPath: string): (fileId: string)
    ensures '/' !in fileId
  {
    var b := Basename(finalPath);
    if EndsWith(b, ".mp3") then b[..|b| - 4] else b
  }

  /** For an `.mp3` directly inside the upload folder, the corrected file id
      serves exactly that file. */
  lemma {:induction false} SingleFileIdServesReportedPath(stem: string, files: set<string>)
    requires '/' !in stem
    requires Mp3Path(stem) in files
    ensures SingleFileId(Mp3Path(stem)) == stem
    ensures ServedFile(files, SingleFileId(Mp3Path(stem))) == Some(Served(Mp3Path(stem), "audio/mpeg"))
  {
    PathsInsideFolder(stem, ".mp3");
    var b := stem + ".mp3";
    assert b[..|b| - 4] == stem;
    assert b[|b| - 4..] == ".mp3";
  }

  /** The file id the single-file completion record carries, as written: the
      job id, whatever path the download reported. It names the reported
      file only when the download produced the expected path. */
  function SingleFileIdAsWritten(progressId: string, finalPath: string): (fileId: string)
    ensures fileId == progressId
    ensures '/' !in progressId && finalPath == Mp3Path(progressId) ==> fileId == SingleFileId(finalPath)
  {
    if '/' !in progressId then
      SingleFileIdServesReportedPath(progressId, {Mp3Path(progressId)});
      progressId
    else progressId
  }

  /** The expected output of a job id without dots or slashes lies directly
      inside the upload folder, and its engine stem is the job id. */
  lemma {:induction false} OutputStem(progressId: string)
    requires '/' !in progressId && '.' !in progressId
    ensures Mp3Path(progressId) == UploadFolder + "/" + progressId + ".mp3"
    ensures Basename(BasePath(Mp3Path(progressId))) == progressId
  {
    PathsInsideFolder(progressId, ".mp3");
    var s := UploadFolder + "/" + progressId;
    assert '.' !in s by {
      forall i | 0 <= i < |s| ensures s[i] != '.' {
        if i > |UploadFolder| {
          assert s[i] == progressId[i - |UploadFolder| - 1];
        }
      }
    }
    assert s + ".mp3" == UploadFolder + "/" + progressId + ".mp3";
    RemoveAllTrailing(s, ".mp3");
    PathsInsideFolder(progressId, "");
    assert progressId + "" == progressId;
  }

  /** A name `<id><tag>.mp3` never collides with the two files of `<id>`. */
  lemma {:induction false} TaggedNameIsAnotherFile(progressId: string, tag: string)
    requires '/' !in progressId + tag && tag != ""
    ensures JoinPath(UploadFolder, progressId + tag + ".mp3") != Mp3Path(progressId)
    ensures JoinPath(UploadFolder, progressId + tag + ".mp3") != ZipPath(progressId)
  {
    assert progressId + tag + ".mp3" == (progressId + tag) + ".mp3";
    PathsInsideFolder(progressId + tag, ".mp3");
    PathsInsideFolder(progressId, ".mp3");
    PathsInsideFolder(progressId, ".zip");
    var p := JoinPath(UploadFolder, progressId + tag + ".mp3");
    assert |p| > |Mp3Path(progressId)| && |p| > |ZipPath(progressId)|;
  }

  /** The output resolution's fallback accepts `<id><tag>.mp3` when
      `<id>.mp3` is missing. */
  lemma {:induction false} TaggedNameIsCandidate(progressId: string, tag: string)
    requires '/' !in progressId && '.' !in progressId
    ensures IsCandidate(progressId + tag + ".mp3", Basename(BasePath(Mp3Path(progressId))))
  {
    var name := progressId + tag + ".mp3";
    OutputStem(progressId);
    assert name[..|progressId|] == progressId;
    assert name[|name| - 4..] == ".mp3";
  }

  /** When the output resolution falls back to `<id><tag>.mp3`, the job
      publishes its id, under which `download_file` finds nothing, while the
      reported path's own id finds the file. */
  lemma {:induction false} AsWrittenIdMissesFallbackOutput(progressId: string, tag: string)
    requires '/' !in progressId && '.' !in progressId && '/' !in tag && tag != ""
    ensures var name := progressId + tag + ".mp3";
            var files := {JoinPath(UploadFolder, name)};
            && IsCandidate(name, Basename(BasePath(Mp3Path(progressId))))
            && ServedFile(files, SingleFileIdAsWritten(progressId, JoinPath(UploadFolder, name))).None?
            && ServedFile(files, SingleFileId(JoinPath(UploadFolder, name)))
               == Some(Served(JoinPath(UploadFolder, name), "audio/mpeg"))
  {
    var stem := progressId + tag;
    assert '/' !in stem;
    assert progressId + tag + ".mp3" == stem + ".mp3";
    TaggedNameIsCandidate(progressId, tag);
    TaggedNameIsAnotherFile(progressId, tag);
    SingleFileIdServesReportedPath(stem, {JoinPath(UploadFolder, stem + ".mp3")});
  }

  /** The outcome of the single-file path: the download function for the
      source type, or the unsupported-type error. */
  function SingleOutcome(sourceType: string, download: Result<(string, string)>): (r: Result<(string, string)>)
    ensures IsKnownSource(sourceType) ==> r == download
    ensures !IsKnownSource(sourceType) ==> r == Err(UnsupportedSourceMessage)
  {
    if IsKnownSource(sourceType) then download else Err(UnsupportedSourceMessage)
  }

  /** The one record job `progressId`'s background work leaves: completed
      with the archive on the playlist path, completed with the job id on
      the single-file path, or the error that stopped it. */
  function FinalRecord(progressId: string, isPlaylist: bool, sourceType: string,
                       playlist: Result<(string, string)>, download: Result<(string, string)>): (r: Record)
    ensures IsTerminal(r)
    ensures Status(r) == "completed" <==>
              if isPlaylist then playlist.Ok? else IsKnownSource(sourceType) && download.Ok?
    ensures Status(r) == "completed" ==> "is_zip" in r && r["is_zip"] == Flag(isPlaylist)
    ensures isPlaylist && playlist.Ok? ==>
              "file_id" in r && r["file_id"] == Str(PlaylistFileId(playlist.value.0))
              && "filename" in r && r["filename"] == Str(playlist.value.1)
    ensures !isPlaylist && Status(r) == "completed" ==>
              "file_id" in r && r["file_id"] == Str(progressId) && "filename" in r && r["filename"] == Str(download.value.1)
    ensures isPlaylist && playlist.Err? ==> r == ErrorRecord(playlist.msg)
    ensures !isPlaylist && !IsKnownSource(sourceType) ==> r == ErrorRecord(UnsupportedSourceMessage)
    ensures !isPlaylist && IsKnownSource(sourceType) && download.Err? ==> r == ErrorRecord(download.msg)
    ensures isPlaylist && playlist.Ok? ==> r == CompletedRecord(PlaylistFileId(playlist.value.0), playlist.value.1, true)
    ensures !isPlaylist && IsKnownSource(sourceType) && download.Ok? ==> r == CompletedRecord(progressId, download.value.1, false)
  {
    if isPlaylist then
      match playlist
      case Ok((zipPath, zipName)) => CompletedRecord(PlaylistFileId(zipPath), zipName, true)
      case Err(msg) => ErrorRecord(msg)
    else
      match SingleOutcome(sourceType, download)
      case Ok((finalPath, finalName)) => CompletedRecord(SingleFileIdAsWritten(progressId, finalPath), finalName, false)
      case Err(msg) => ErrorRecord(msg)
  }

  /** The final record with the corrected file id: a finished single-file
      job publishes the id of the file its download reported. */
  function CorrectedFinalRecord(progressId: string, isPlaylist: bool, sourceType: string,
                                playlist: Result<(string, string)>, download: Result<(string, string)>): (r: Record)
    ensures IsTerminal(r)
    ensures Status(r) == Status(FinalRecord(progressId, isPlaylist, sourceType, playlist, download))
    ensures r.Keys == FinalRecord(progressId, isPlaylist, sourceType, playlist, download).Keys
    ensures !isPlaylist && Status(r) == "completed" ==> r["file_id"] == Str(SingleFileId(download.value.0))
    ensures forall key :: key in r && key != "file_id" ==>
              r[key] == FinalRecord(progressId, isPlaylist, sourceType, playlist, download)[key]
    ensures isPlaylist || Status(r) != "completed" ==> r == FinalRecord(progressId, isPlaylist, sourceType, playlist, download)
  {
    var written := FinalRecord(progressId, isPlaylist, sourceType, playlist, download);
    if !isPlaylist && Status(written) == "completed" then written["file_id" := Str(SingleFileId(download.value.0))]
    else written
  }

  /** When the download produced the expected path, the corrected record is
      the record the code writes. */
  lemma CorrectedRecordAgreesOnExpectedPath(progressId: string, isPlaylist: bool, sourceType: string,
                                            playlist: Result<(string, string)>, name: string)
    requires '/' !in progressId
    ensures var download := Ok((Mp3Path(progressId), name));
            CorrectedFinalRecord(progressId, isPlaylist, sourceType, playlist, download)
            == FinalRecord(progressId, isPlaylist, sourceType, playlist, download)
  {
    var download := Ok((Mp3Path(progressId), name));
    var written := FinalRecord(progressId, isPlaylist, sourceType, playlist, download);
    if !isPlaylist && Status(written) == "completed" {
      assert SingleFileIdAsWritten(progressId, Mp3Path(progressId)) == SingleFileId(Mp3Path(progressId));
      assert written["file_id" := Str(SingleFileId(Mp3Path(progressId)))] == written;
    }
  }

  /** A finished single-file job whose download reported `downloads/<stem>.mp3`
      publishes, once corrected, an id under which `download_file` serves
      exactly that file. */
  lemma CorrectedRecordServesReportedFile(progressId: string, sourceType: string, playlist: Result<(string, string)>,
                                          stem: string, name: string, files: set<string>)
    requires IsKnownSource(sourceType) && '/' !in stem && Mp3Path(stem) in files
    ensures var r := CorrectedFinalRecord(progressId, false, sourceType, playlist, Ok((Mp3Path(stem), name)));
            && Status(r) == "completed" && r["file_id"] == Str(stem)
            && ServedFile(files, stem) == Some(Served(Mp3Path(stem), "audio/mpeg"))
  {
    SingleFileIdServesReportedPath(stem, files);
  }

  /** What `convert_video` answers: the job it registered, or a 400 error. */
  datatype ConvertReply = Accepted(progressId: string) | Rejected(status: nat, error: string)

  /** `convert_video` up to the start of the background job: a rejected
      request registers nothing; an accepted one registers its job as
      starting, and changes no other job. */
  method ConvertVideo(store: ProgressStore, url: Option<string>, u: Url, requested: Option<string>, progressId: string)
    returns (reply: ConvertReply)
    modifies store
    ensures reply.Rejected? <==> DetectSource(url, u, requested).Err?
    ensures reply.Rejected? ==>
              reply == Rejected(400, DetectSource(url, u, requested).msg) && store.jobs == old(store.jobs)
    ensures reply.Accepted? ==> reply == Accepted(progressId) && store.jobs == old(store.jobs)[progressId := StartingRecord]
  {
    var detected := DetectSource(url, u, requested);
    if detected.Err? {
      return Rejected(400, detected.msg);
    }
    store.Put(progressId, StartingRecord);
    reply := Accepted(progressId);
  }

  /** `process_download`: `isPlaylist` is `is_playlist(url)`, `playlist` the
      outcome of `process_playlist` and `download` that of the download
      function of the source type; `folder` holds the files as the engines
      left them. The job's record is replaced by its final record, no other
      job's record changes, and a failed single-file job removes its
      expected output. */
  method ProcessDownload(store: ProgressStore, folder: Folder, progressId: string, isPlaylist: bool,
                         sourceType: string, playlist: Result<(string, string)>, download: Result<(string, string)>)
    modifies store, folder
    ensures store.jobs == old(store.jobs)[progressId := FinalRecord(progressId, isPlaylist, sourceType, playlist, download)]
    ensures folder.files ==
              if !isPlaylist && SingleOutcome(sourceType, download).Err?
              then old(folder.files) - {Mp3Path(progressId)}
              else old(folder.files)
  {
    if isPlaylist {
      match playlist {
        case Ok((zipPath, zipName)) =>
          store.Put(progressId, CompletedRecord(PlaylistFileId(zipPath), zipName, true));
        case Err(msg) =>
          store.Put(progressId, ErrorRecord(msg));
      }
      return;
    }
    var outputPath := Mp3Path(progressId);
    var outcome: Result<(string, string)>;
    if sourceType == "youtube" || sourceType == "soundcloud" || sourceType == "spotify" || sourceType == "instagram" {
      outcome := download;
    } else {
      outcome := Err(UnsupportedSourceMessage);
    }
    match outcome {
      case Ok((finalPath, finalName)) =>
        store.Put(progressId, CompletedRecord(SingleFileIdAsWritten(progressId, finalPath), finalName, false));
      case Err(msg) =>
        store.Put(progressId, ErrorRecord(msg));
        if outputPath in folder.files {
          folder.Remove(outputPath);
        }
    }
  }

  /** A client streaming a job that is polled once while starting and once
      finished sees the starting record, then the final record twice, and
      the stream stops there. */
  lemma {:induction false} StreamOfAJob(progressId: string, isPlaylist: bool, sourceType: string,
                                        playlist: Result<(string, string)>, download: Result<(string, string)>)
    ensures var last := FinalRecord(progressId, isPlaylist, sourceType, playlist, download);
            Stream.Stream([Some(StartingRecord), Some(last)]) == Stream.StreamRun([StartingRecord, last, last], 2)
  {
    StartThenEnd(FinalRecord(progressId, isPlaylist, sourceType, playlist, download));
  }

  /** Two polls, the first seeing the start record and the second a terminal
      record. */
  lemma StartThenEnd(last: Record)
    requires IsTerminal(last)
    ensures Stream.Stream([Some(StartingRecord), Some(last)]) == Stream.StreamRun([StartingRecord, last, last], 2)
  {
    var snaps := [Some(StartingRecord), Some(last)];
    assert StartingRecord != last by {
      assert !IsTerminal(StartingRecord);
    }
    assert "status" in last && "status" in StartingRecord;
    assert Stream.Present(Some(last)) && Stream.Present(Some(StartingRecord));
    assert Stream.Poll(snaps, 1) == Some(last);
    assert Stream.StreamFrom(snaps, 1, Some(StartingRecord)) == Stream.StreamRun([last, last], 1);
    assert Stream.Poll(snaps, 0) == Some(StartingRecord);
  }
}
