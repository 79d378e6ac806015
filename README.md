# conversion_mp3 in Dafny

A model of the bookkeeping core of conversion_mp3. This is a Flask service that turns YouTube, SoundCloud, Spotify and Instagram links into MP3 files, or into a zip archive for a playlist. The model covers:

- **Source classification and file-name hygiene** (`downloader.py`):
  - the host and playlist tests on a parsed URL;
  - `sanitize_filename`;
  - the two sweeps of temporary download files.
- **Acquisition bookkeeping** (`downloader.py`):
  - the progress hooks;
  - the "expected path, else newest matching `.mp3`" output resolution;
  - `process_playlist`: naming, the Spotify batch path, the per-entry loop that tolerates failures, and the empty-result check;
  - the Spotify strategy chain: spotdl first, then the YouTube-search fallback;
  - the fallback's title heuristic and search query.
- **The job protocol** (`app.py`):
  - request admission and source auto-detection;
  - the shared progress table, to which every write replaces a job's whole record;
  - a job's start and final records;
  - the change-only progress stream that ends on a terminal record or times out;
  - the progress lookup;
  - the serving and deletion of converted files.
- **The `.env` rewrite** of `setup_spotify.py`.

Each core file keeps its own form:

- Pure logic (classifiers, sanitising, the title heuristic, detection, replies) is written as functions, with lemmas about them.
- Code that changes state step by step is written as methods with loops, each proved against a specification function: the temp-file sweeps, the newest-file scan, the playlist loop, the stream loop and the `.env` line rewrite.
- The shared progress dictionary is a class, `Progress.ProgressStore`.
- The upload folder is a class, `Delivery.Folder`.
- The `.env` file is a class, `EnvFile.DotEnv`.

yt-dlp, spotdl, FFmpeg, HTTP fetches and the file system are not modelled. Their results enter as parameters:

- outcomes: success with a value, or failure with a message;
- directory listings: names, or name and modification-time pairs;
- scraped page facts.

One module per concern:

| file | module | source |
|---|---|---|
| wrappers.dfy | `Wrappers` | Option and Result |
| text.dfy | `Text` | the Python string and `os.path` operations used |
| classify.dfy | `Classify` | `is_*_url`, `is_playlist` |
| sanitize.dfy | `Sanitize` | `sanitize_filename` |
| tempfiles.dfy | `TempFiles` | `cleanup_temp_files`, `cleanup_all_temp_files` |
| progress.dfy | `Progress` | progress records, `download_progress`, the `progress_hook` closures |
| output.dfy | `Output` | output resolution and display name |
| playlist.dfy | `Playlist` | `process_playlist` |
| spotify.dfy | `Spotify` | `download_spotify`, `download_spotify_fallback` |
| delivery.dfy | `Delivery` | `download_file`, `delete_file` |
| stream.dfy | `Stream` | `progress.generate`, `check_progress` |
| jobs.dfy | `Jobs` | `convert_video`, `process_download` |
| envfile.dfy | `EnvFile` | `setup_spotify` |

## Model

| member | source | states |
|---|---|---|
| Classify.IsPlaylist | downloader.py:178-186 | YouTube host: playlist iff the query contains `list=`. Otherwise SoundCloud: iff the path contains `/sets/`. Otherwise Spotify: iff the path contains `/playlist/` or `/album/`. Any other host: never. |
| Classify.HostAnywhere | downloader.py:162-176 | The host tests are plain substring tests: any netloc containing the host string is classified, whatever surrounds it. |
| Classify.InstagramNeverPlaylist | downloader.py:178-186 | A URL whose host is none of YouTube, SoundCloud or Spotify (Instagram included) is never a playlist. |
| Classify.PlaylistMarkerLocation | downloader.py:178-186 | For a YouTube host the verdict depends only on the query; for the other hosts only on the path. |
| Classify.YouTubeListParameter | downloader.py:180-181 | Any `youtube.com` URL with `list=` in its query is a playlist, even one that also names a single video. |
| Sanitize.SpaceNotPrintable | downloader.py:190-191 | Every whitespace character that `strip` removes, except the space itself, was already dropped as non-printable. |
| Sanitize.ReplaceReserved | downloader.py:189 | Same length. Each reserved character becomes `_`; every other character is kept. |
| Sanitize.KeepPrintable | downloader.py:190 | Only printable characters remain. A character occurs in the result exactly when it occurs in the input and is printable. The result is no longer than the input, and an all-printable input is unchanged. |
| Sanitize.SanitizeFilename | downloader.py:188-191 | The result has no reserved character, only printable characters, no surrounding whitespace, and is no longer than the input. Which characters survive is stated by `SanitizeKeeps`. |
| Sanitize.SanitizeKeeps | downloader.py:188-191 | Every character of the result other than `_` occurs in the input. Every printable, non-reserved, non-space character of the input occurs in the result. A reserved character in the input leaves a `_` in the result. |
| Sanitize.KeepPrintableAppend | downloader.py:190 | Filtering distributes over concatenation, so the printable characters keep their order. |
| Sanitize.SanitizeIdempotent | downloader.py:188-191 | Sanitising twice gives the same name as sanitising once. |
| Sanitize.SanitizeFixedPoints | downloader.py:188-191 | A name is left unchanged exactly when it is already clean. |
| Sanitize.CleanIsFixed | downloader.py:188-191 | A clean name is its own sanitised form. |
| TempFiles.SurvivorsMembership | downloader.py:198-204 | After a sweep, an entry remains exactly when it was listed and either was not selected or could not be removed. |
| TempFiles.SurvivorsSubMultiset | downloader.py:211-219 | A sweep only takes entries out: the remaining entries are a sub-multiset of the listing, no longer than it. |
| TempFiles.CleanupTempFiles | downloader.py:193-206 | The loop leaves exactly the listing minus the removable entries that start with the download's base name and end in one of the nine temporary extensions. |
| TempFiles.CleanupAllTempFiles | downloader.py:208-221 | The loop leaves exactly the listing minus the removable entries ending in one of the eleven extensions (the nine plus `.part` and `.ytdl`). |
| TempFiles.Mp3NeverTemp | downloader.py:196 | A name ending in `.mp3` is never selected by either sweep. |
| TempFiles.StemSweepWithinGeneral | downloader.py:196-213 | Whatever the per-download sweep removes, the general sweep removes too. |
| TempFiles.OtherStemsSurvive | downloader.py:200 | The per-download sweep spares every name that does not start with the base name, whatever its extension. |
| Progress.Trunc | downloader.py:398-399 | `int()` truncates toward zero: the result is within one of the argument, on the zero side. |
| Progress.Percent | downloader.py:390-406 | The percentage lies in [0, 100]. It is 0 when the total is not positive, equals downloaded/total·100 when 0 ≤ downloaded ≤ total, and is 100 when downloaded ≥ total. |
| Progress.EtaBand | downloader.py:395-403 | 0 ≤ min ≤ max ≤ min + 10. Everything is 0 when the speed or the total is not positive. Otherwise seconds·speed = total − downloaded. For the truncated estimate t: the band is [t − 5, t + 5] when t ≥ 5 and [0, t + 5] when 0 ≤ t < 5; a negative t gives min 0 and max t + 5 when t > −5, else 0. |
| Progress.HookRecord | downloader.py:382-421 | A record is written exactly on `downloading` and `finished`. Its percent lies in [0, 100]. For `downloading` it is the clamped `Percent` of the downloaded and total bytes, 0 when the total is 0. `finished` gives percent 100 and status `converting`. For `downloading` events the key set of each variant and the values of the YouTube variant's fields are stated; its ETA fields are sound, and all 0 without speed or total. No hook record is terminal. |
| Progress.RunHook | downloader.py:484-505 | When a table is given, a tracked job's record is replaced by the hook record when there is one, and otherwise the table is unchanged. Every other entry of the table is always unchanged. |
| Progress.ProgressStore.constructor | app.py:19 | The table starts empty. |
| Progress.ProgressStore.Put | app.py:52-55 | A write replaces the job's whole record and leaves the other jobs alone. |
| Progress.ProgressStore.Get | app.py:195 | `get` finds a job exactly when the table holds it, and returns its record. |
| Output.NewestUnique | downloader.py:462-463 | At most one listing entry heads the candidates sorted newest first (the stable sort picks the first of equally new ones). |
| Output.NewestCandidate | downloader.py:459-464 | `None` exactly when no entry starts with the stem and ends in `.mp3`; otherwise the index of the head of the sorted candidates. |
| Output.ResolveOutput | downloader.py:456-467 | The expected path when it exists. Otherwise the newest matching `.mp3` of its directory. Otherwise the error "Fichier MP3 non créé après conversion", raised exactly when there is no candidate. |
| Output.DisplayName | downloader.py:444-448 | The sanitised custom name when one is given, else the sanitised title, else the sanitised default title. Always clean. |
| Playlist.PlaylistName | downloader.py:244-248 | Never empty and always clean. It is the sanitised title when that is not empty, and "Playlist" otherwise. |
| Playlist.DefaultNameClean | downloader.py:246-248 | The default name "Playlist" is clean. |
| Playlist.Decimal | downloader.py:338 | `str(n)` is one or more digits, with at most 1, 2 or 3 digits below 10, 100 or 1000. |
| Playlist.DecimalRoundTrip | downloader.py:338 | Reading `str(n)` back as digits gives n. |
| Playlist.LeadingZeros | downloader.py:348 | Leading zeros do not change the value of a numeral. |
| Playlist.IndexPrefix | downloader.py:348 | `f"{i:03d}"` is all digits, at least three of them, and exactly three below 1000. |
| Playlist.IndexPrefixRoundTrip | downloader.py:348 | The padded prefix still denotes i. |
| Playlist.ItemNameRoundTrip | downloader.py:348 | The index is read back from every item file name `i:03d_title.mp3`, so the files of different entries differ. |
| Playlist.Attempt | downloader.py:341-348 | An entry is downloaded exactly when it has a title and a non-empty `url` or `webpage_url`, or the playlist is YouTube and it has an id. The url is `url` when non-empty, else `webpage_url` when non-empty, else (YouTube only) the watch URL rebuilt from the id. The output path is always `playlist_dir/i:03d_title.mp3`. |
| Playlist.WatchUrlReadsBack | downloader.py:344 | The rebuilt watch URL names the entry's own id: the text after `watch?v=` is the id. |
| Playlist.AttemptPlatformMatters | downloader.py:341-346 | A YouTube and a non-YouTube playlist treat an entry differently exactly when it has a title and an id but neither `url` nor `webpage_url`. Whatever a non-YouTube playlist downloads, a YouTube one downloads the same way. |
| Playlist.SuccessesMembership | downloader.py:332-353 | A path is collected exactly when some attempted entry's download produced it. |
| Playlist.OneFailureCostsOneItem | downloader.py:351-353 | Making one entry fail loses at most one file: the files collected afterwards are a sub-multiset of those collected before, and at most one shorter. `FailureCostsItsFile` names the file lost. |
| Playlist.FailureCostsItsFile | downloader.py:332-353 | For an entry k among the first n: the collected files are those of the entries before k, then entry k's file if it produced one, then those of the entries after k. Making entry k fail gives the same files without entry k's. |
| Playlist.LastEntryMembership | downloader.py:332-353 | A path is collected from the first n entries exactly when it was collected from the first n − 1 or entry n − 1 produced it. |
| Playlist.OnlyEarlierEntriesDiffer | downloader.py:332-353 | Before entry k is reached, whether k fails changes nothing. |
| Playlist.StepRecord | downloader.py:334-339 | The record written before entry i has keys percent, status and message; its percent is i/total·100, in [0, 100); its status is `downloading`, which is not terminal. |
| Playlist.StepPercentBounds | downloader.py:336 | percent·total = i·100 and 0 ≤ percent < 100. |
| Playlist.StepPercentIncreases | downloader.py:336 | A later entry reports a strictly larger percentage. |
| Playlist.StepRecords | downloader.py:332-339 | The records written before the first n entries: one per entry, in entry order. |
| Playlist.DownloadEntries | downloader.py:329-353 | The loop collects exactly the successes in entry order, writes the step records in order for a tracked job, and leaves the last step record in the table. Untracked jobs leave the table unchanged. |
| Playlist.Finish | downloader.py:355-364 | An empty result is the error "Aucun fichier n'a pu être téléchargé de la playlist". Otherwise the result is the archive `upload/<name>_compress.zip` and its display name, the archive's file name with `.zip` removed (`FinishDisplayName` gives it for dot-free names). |
| Playlist.FinishDisplayName | downloader.py:358-364 | For a playlist name without a dot, the display name is `<name>_compress`: only the final `.zip` is removed. |
| Playlist.BatchStartRecord | downloader.py:264-269 | The Spotify batch's start record: percent 0 and status `downloading`, which is not terminal. |
| Playlist.Mp3Files | downloader.py:305-307 | A path is collected exactly when it is the playlist directory joined with a listed name ending in `.mp3`. |
| Playlist.SpotifyBatchResult | downloader.py:271-310 | A failed FFmpeg lookup fails the batch with its message. A non-zero spotdl exit fails with "Erreur spotdl: " + stderr. Otherwise the batch fails ("Aucun fichier MP3 trouvé.") exactly when no listed name ends in `.mp3`, and else finishes with those files. |
| Playlist.LastWritten | downloader.py:258-339 | The record a tracked job is left with. On the Spotify path there is one exactly when spotdl is installed. On the YouTube and SoundCloud path there is one exactly when `extract_info` succeeded with a non-empty `entries` list. Otherwise there is none. Every such record has status `downloading` and is not terminal. |
| Playlist.RunSpotifyBatch | downloader.py:258-310 | A missing spotdl is the error "spotdl n'est pas installé.", with the table unchanged. Otherwise the result is the batch result, and a tracked job holds the start record. |
| Playlist.RunEntries | downloader.py:313-356 | A failed `extract_info` is that failure. A listing without `entries` is the error "Impossible de récupérer les éléments de la playlist". Otherwise the result is the loop's files finished into an archive. A tracked job holds the last step record when there was at least one entry; otherwise the table is unchanged. |
| Playlist.ProcessPlaylist | downloader.py:244-369 | Spotify: the error "spotdl n'est pas installé." when spotdl is missing, and otherwise the batch result. YouTube and SoundCloud: a failed `extract_info` is that failure, a listing without `entries` is an error, and otherwise the loop's result is finished into an archive. Other types: the unsupported-type error. In every case the table changes only at the job's id, and only to the record `LastWritten` names. |
| Spotify.BothFailuresReported | downloader.py:651-655 | The combined error contains spotdl's message and then the fallback's, each at a known position. |
| Spotify.Chain | downloader.py:562-655 | An FFmpeg error or an empty FFmpeg location stops the chain before any strategy is tried. Otherwise spotdl is tried first exactly when it is installed. The fallback is tried exactly when spotdl is missing or failed. No strategy is tried twice. Every strategy before the last failed. The run succeeds iff some strategy did, and then with the last strategy's result. The error messages of both failure cases are stated. |
| Spotify.ChainFailsOnlyWhenAllFail | downloader.py:578-655 | Past the FFmpeg gate, the chain fails exactly when the fallback fails and spotdl was missing or failed. |
| Spotify.DownloadSpotify | downloader.py:562-655 | The result is the chain's result. The `searching` record is written exactly when spotdl is about to run for a tracked job; otherwise the table is unchanged. |
| Spotify.SpotdlAttempt | downloader.py:618-645 | A non-zero exit fails with "Erreur d'exécution spotdl: " + stderr. Otherwise the attempt fails, with the no-file message, exactly when no listed name ends in `.mp3`. On success the file is the output path, named after the custom name or else after the newest `.mp3` with `.mp3` removed, and the name is clean. |
| Spotify.PathSegments | downloader.py:743 | `strip('/').split('/')` has at least one segment. |
| Spotify.TwoSegmentsIffInnerSlash | downloader.py:743-746 | The path has the two segments the fallback needs exactly when a slash remains once the outer slashes are stripped. |
| Spotify.NonBlankParts | downloader.py:776 | Every part kept is non-empty and stripped, and no more parts are kept than given. `NonBlankIsFilter`, `NonBlankMembership` and `NonBlankAppend` state which parts are kept and in which order. |
| Spotify.NonBlankIsFilter | downloader.py:776 | The kept parts are the stripped parts with the empty ones dropped, in order. |
| Spotify.NonBlankMembership | downloader.py:776 | A string is kept exactly when it is non-empty and is the stripped form of some part. |
| Spotify.NonBlankAppend | downloader.py:776 | The filter distributes over concatenation, so kept parts keep their relative order. |
| Spotify.NonBlankTwo | downloader.py:776-777 | At least two parts are kept exactly when two different parts are not blank. |
| Spotify.NonBlankFirst | downloader.py:776-778 | The first kept part is the stripped form of the first non-blank part. |
| Spotify.NonBlankLast | downloader.py:776-779 | The last kept part is the stripped form of the last non-blank part. |
| Spotify.TrySplit | downloader.py:775-780 | A separator pass yields a non-empty, stripped artist and title, or nothing. `TrySplitWhen`, `TrySplitArtist` and `TrySplitTitle` state when it splits and which parts it returns. |
| Spotify.TrySplitWhen | downloader.py:775-777 | A pass splits exactly when the og:title contains the separator and at least two of the parts split on it are not blank. |
| Spotify.TrySplitArtist | downloader.py:776-778 | When a pass splits, the artist is the stripped first non-blank part. |
| Spotify.TrySplitTitle | downloader.py:776-779 | When a pass splits, the title is the stripped last non-blank part. |
| Spotify.FirstSome | downloader.py:774-780 | The separator loop finds nothing exactly when every pass finds nothing; otherwise it stops at the first pass that splits. |
| Spotify.SplitTitle | downloader.py:773-780 | Nothing exactly when no separator's pass splits. Otherwise the result of the first separator, in the order " - ", en dash, em dash, horizontal bar, whose pass splits. That result is a non-empty, stripped artist and title. |
| Spotify.EmptyNeverSplits | downloader.py:773-780 | An empty og:title never splits, whatever the separators. |
| Spotify.WithOgTitle | downloader.py:769-782 | A known title, or no og:title, leaves the track unchanged. Otherwise an og:title that splits gives title = the split's title and artist = the split's artist. One that does not split gives the whole stripped og:title as the title, with the artist kept. With an og:title, the title is non-empty exactly when it already was or the stripped og:title is non-empty. |
| Spotify.ResolveTrack | downloader.py:761-799 | A description naming both fields wins. Without a description title, an og:title that splits gives (title = last part, artist = first part). The title is missing only when no meta tag gave one, or when the entity data gave an empty name. |
| Spotify.SearchQuery | downloader.py:804 | Exactly "artist - title" when the artist is non-empty, and the title alone otherwise. It always ends in the title. |
| Spotify.SearchTarget | downloader.py:742-807 | A path with fewer than two segments gives "URL Spotify invalide.". Later errors carry the fallback's prefix; the non-200 message is stated. The search URL exists exactly when the path, the fetch, the status and the title all succeed, and it is `ytsearch1:` + the query. |
| Spotify.Fallback | downloader.py:741-811 | The fallback succeeds exactly when the search target and the YouTube download do, with that download's result. A YouTube failure is reported with the fallback's prefix. |
| Spotify.SplitJoined | downloader.py:776 | For an artist a that contains no " - " and does not end in " -", and a title t that contains no " - ", "a - t" splits on " - " into exactly [a, t]. |
| Spotify.TrySplitJoined | downloader.py:774-780 | Under the conditions of `SplitJoined`, with a and t non-empty and stripped, the first separator pass over "a - t" yields (a, t). |
| Spotify.QueryReadsBack | downloader.py:773-807 | For a non-empty, stripped artist and title, neither containing " - " and the artist not ending in " -", the query "artist - title" reads back through the og:title split as that artist and title. |
| Spotify.JoinedTitleSplits | downloader.py:770-780 | Under the conditions of `QueryReadsBack`, the og:title "artist - title" strips to itself and splits into that artist and title. |
| Spotify.OgTitleIsTheQuery | downloader.py:769-804 | Under the conditions of `QueryReadsBack` and without a description, an og:title "artist - title" resolves to that track, and the search query is the og:title itself. |
| Delivery.PathsDiffer | app.py:123-124 | The `.mp3` and `.zip` paths of one file id never coincide. |
| Delivery.PathsInsideFolder | app.py:123-124 | A file id without `/` names a file directly inside `downloads`, whose basename is the id plus the extension. |
| Delivery.ServedFile | app.py:126-133 | Not found exactly when neither file exists. The `.mp3` wins, as `audio/mpeg`; otherwise the `.zip`, as `application/zip`. The file served always exists. |
| Delivery.DeleteDelay | app.py:139 | The delay is at least 60 s and at least size/MiB + 30 s, and is one of the two. |
| Delivery.DeleteDelayMonotone | app.py:139 | A larger file is never deleted sooner. |
| Delivery.SleepAtLeastAMinute | app.py:155 | The truncated sleep before deletion is at least 60 s. |
| Delivery.DownloadName | app.py:142-150 | A requested name is kept as a prefix. It is kept whole when it ends in `.mp3` or `.zip` in any letter case, and otherwise gets the served file's extension. With no requested name, the basename is used. |
| Delivery.LowerKeepsSuffix | app.py:145 | Lower-casing keeps a lower-case suffix in place. |
| Delivery.ServedExtension | app.py:146 | `splitext` of a served path gives back `.mp3` or `.zip`. |
| Delivery.DownloadFile | app.py:120-167 | 404 exactly when no file is served. Otherwise the reply holds the served file, the offered name and a deletion delay of at least 60 s. |
| Delivery.NameForServedPath | app.py:142-150 | For a file directly inside the folder, the offered name ends in `.mp3` or `.zip`, letter case aside. |
| Delivery.OfferedNameHasExtension | app.py:142-150 | Whatever name is requested, the browser is offered a name ending in `.mp3` or `.zip`, letter case aside. |
| Delivery.AfterDelete | app.py:176-183 | Both files of the id are gone. Every other file stays. Nothing is added. |
| Delivery.DeleteReply | app.py:176-188 | 200 "Fichier supprimé" exactly when the `.mp3` or the `.zip` existed; otherwise 404 "Fichier non trouvé". |
| Delivery.DeleteTwice | app.py:169-188 | A second delete answers 404, changes nothing, and the id is no longer served. |
| Delivery.Folder.constructor | app.py:11 | The folder holds the given files. |
| Delivery.Folder.Remove | app.py:178 | Exactly that path is removed. |
| Delivery.Folder.Delete | app.py:169-188 | The reply and the new folder are those of `DeleteReply` and `AfterDelete` on the old folder. |
| Stream.StreamFrom | app.py:206-235 | The stream never polls past 300 and yields at most one record more than it polls. |
| Stream.Generate | app.py:206-235 | The loop yields exactly what the stream specification yields, in at most 300 polls. |
| Stream.SkipStep | app.py:213-216 | A poll that finds no record, or an empty one, yields nothing and moves on to the next poll. |
| Stream.EndStep | app.py:219-231 | A poll that finds a terminal record yields it (twice when it differs from the last record yielded) and ends the stream after this poll. |
| Stream.YieldStep | app.py:219-234 | A poll that finds a non-terminal record yields it only when it differs from the last one yielded, and the stream goes on with it as the last record. |
| Stream.FirstYieldDiffers | app.py:219-226 | After a non-terminal record, the next record yielded differs from it. |
| Stream.NoRepeatsButTheEnd | app.py:219-232 | No record is yielded twice in a row, except the terminal record at the very end. |
| Stream.PrependKeepsRepeats | app.py:219-226 | A changed, non-terminal record in front keeps repeats at the end only. |
| Stream.TerminalOnlyAtTheEnd | app.py:228-232 | A terminal record is yielded only in the last two places, and a stream that ends on one yields it twice. |
| Stream.ReachesTheEnd | app.py:228-232 | If the table holds a terminal record at some poll before the limit, the stream ends on a terminal record. |
| Stream.TimesOut | app.py:208-217 | Without a terminal record, the stream polls exactly until the limit. |
| Stream.YieldsPolledRecords | app.py:212-225 | Every record yielded was the job's record at some poll. |
| Stream.StreamGuarantees | app.py:206-235 | At most 300 polls and 301 records. Repeats only at the end; terminal records only last. Every record was polled. The stream ends on the terminal record if one appears in time, and otherwise times out. |
| Stream.CheckProgress | app.py:192-199 | 200 with the record exactly when the job has a non-empty record; otherwise 404 with `{status: not_found}`. |
| Stream.LookupSeesLastWrite | app.py:195-199 | A lookup returns the record last written for its job. A write leaves every other job's lookup unchanged. |
| Jobs.AutoDetect | app.py:38-48 | YouTube, then SoundCloud, then Spotify, then Instagram, each exactly when the earlier hosts do not match. Otherwise the "Source non reconnue" error. A detected source is always a known one. |
| Jobs.DetectSource | app.py:29-48 | A missing or empty url gives "URL manquante". An explicit source type other than "auto" is taken as given. Otherwise the auto-detection decides. |
| Jobs.DetectedSourceDecidesPlaylistMarker | app.py:38-48 | The auto-detected source decides which marker makes the URL a playlist (`list=`, `/sets/`, `/playlist/` or `/album/`), and an Instagram URL never is one. |
| Jobs.CompletedRecord | app.py:92-98 | Exactly the keys percent (100), status (`completed`), file_id, filename and is_zip. The record is terminal. |
| Jobs.ErrorRecord | app.py:102-105 | Exactly status `error` and the message. The record is terminal. |
| Jobs.StartingIsNotTerminal | app.py:51-55 | The start record `{percent 0, status starting}` is not terminal, and differs from every final record. |
| Jobs.PlaylistFileIdFindsArchive | app.py:66 | For a playlist name without a dot, the published file id is `<name>_compress` and serves the reported archive path. |
| Jobs.SingleFileId | app.py:95 | The corrected file id (see Findings) has no `/`. |
| Jobs.SingleFileIdAsWritten | app.py:95 | As written, the file id is the job id. It coincides with the corrected id whenever the download returned the expected path `downloads/<id>.mp3`. |
| Jobs.SingleFileIdServesReportedPath | app.py:120-133 | For `downloads/<stem>.mp3`, the corrected id is the stem, and `download_file` serves exactly that file. |
| Jobs.OutputStem | downloader.py:372 | For a job id with no `.` or `/`, the engine stem of the expected output is the job id. |
| Jobs.TaggedNameIsAnotherFile | app.py:123-124 | `downloads/<id><tag>.mp3` is neither file that `download_file(<id>)` looks for. |
| Jobs.TaggedNameIsCandidate | downloader.py:456-467 | The output resolution accepts `<id><tag>.mp3` as a candidate. |
| Jobs.AsWrittenIdMissesFallbackOutput | app.py:92-98 | When the resolution falls back to `<id><tag>.mp3`, the id as written serves nothing, while the corrected id serves the file. |
| Jobs.SingleOutcome | app.py:80-89 | A known source type gets its download's outcome; any other type gets "Type de source non supporté". |
| Jobs.FinalRecord | app.py:57-105 | The final record as written. It is always terminal. A succeeded playlist gives the completed record (percent 100, exactly the five keys) with the archive's name as file_id and is_zip true. A succeeded single file of a known type gives the completed record with the job id as file_id, whatever path the download returned, and is_zip false. Otherwise it is the error record of the failure's message, or of "Type de source non supporté". |
| Jobs.CorrectedFinalRecord | app.py:57-105 | The corrected final record (see Findings). It has the status and the keys of the record as written, and the same value under every key but file_id. A completed single file gets the corrected id of the returned path. Playlist and failure records are the records as written. |
| Jobs.CorrectedRecordAgreesOnExpectedPath | app.py:95 | When the download returned the expected path, the corrected record is the record as written. |
| Jobs.CorrectedRecordServesReportedFile | app.py:92-133 | A completed single-file job whose file is `downloads/<stem>.mp3` publishes the id `stem` in the corrected record, and `download_file(stem)` serves that file as `audio/mpeg`. |
| Jobs.ConvertVideo | app.py:26-118 | A rejected request is answered 400 with the detection error and registers nothing. An accepted one answers with the job id alone, and registers the job as starting, leaving other jobs alone. |
| Jobs.ProcessDownload | app.py:57-111 | The job's record is replaced by its final record as written (`FinalRecord`), and no other job changes. A failed single-file job removes its expected `.mp3`; nothing else is removed. |
| Jobs.StreamOfAJob | app.py:51-105 | For every outcome of a job, a client polling once while it starts and once after it has finished sees the start record, then the final record twice, in two polls. |
| Jobs.StartThenEnd | app.py:219-232 | Any terminal record polled after the start record ends a two-poll stream: the start record, then that record twice. |
| EnvFile.Retained | setup_spotify.py:29 | No kept line sets a credential, and no more lines are kept than given. |
| EnvFile.WithNewline | setup_spotify.py:32-33 | Same length, with all lines but the last unchanged. A last line that already ends in a line break is untouched; one that does not becomes that line followed by a line break. |
| EnvFile.KeyLinesShape | setup_spotify.py:35-36 | The two appended lines set the credentials and end in line breaks. |
| EnvFile.NewlineKeepsNonKey | setup_spotify.py:29-33 | Adding the line break never turns a line into a credential line. |
| EnvFile.RetainedAppend | setup_spotify.py:29 | The filter distributes over concatenation, so kept lines keep their relative order. |
| EnvFile.RetainedMembership | setup_spotify.py:29 | A line is kept exactly when it was present and sets no credential. |
| EnvFile.RetainedKeepsClean | setup_spotify.py:29 | Lines without credential lines are all kept. |
| EnvFile.RetainedKeepsShape | setup_spotify.py:26-29 | Filtering `readlines` output leaves `readlines`-shaped output. |
| EnvFile.RetainedEndInNewline | setup_spotify.py:29 | Filtering lines that all end in a break leaves lines that all end in a break. |
| EnvFile.WithNewlineKeepsNonKey | setup_spotify.py:32-33 | The newline fix introduces no credential line. |
| EnvFile.RewriteShape | setup_spotify.py:29-36 | The output has the kept count + 2 lines and ends with exactly the two credential lines. The lines before them set no credential and are the kept lines in order, except that the last kept line gets a line break appended when it lacks one. |
| EnvFile.RewriteEndsLines | setup_spotify.py:26-36 | For `readlines`-shaped input, every output line ends in a line break. |
| EnvFile.RewriteIdempotent | setup_spotify.py:29-36 | Rewriting twice with the same credentials gives the lines of one rewrite. |
| EnvFile.RewriteLines | setup_spotify.py:28-36 | The filter loop, the newline fix and the two appends produce exactly the specified rewrite. |
| EnvFile.DotEnv.constructor | setup_spotify.py:22-26 | The file starts with the given lines, or is absent. |
| EnvFile.DotEnv.Setup | setup_spotify.py:15-39 | The file is saved exactly when both stripped answers are non-empty; otherwise it is unchanged. When saved, it holds the rewrite of its old lines (none if absent) with the stripped credentials. |

## Left out

- FFmpeg discovery and installation (`get_local_ffmpeg_path`, `check_ffmpeg`, `download_ffmpeg_windows`, `ensure_ffmpeg`): OS paths, subprocesses and an HTTP download. Their result enters as a `Result<string>`.
- yt-dlp `extract_info` and `download`, the spotdl subprocesses, `requests.get`, `shutil.make_archive` and `shutil.rmtree`: each is an outcome parameter. On the playlist path, `extract_info` is a `Result`: an exception it raises, or a `None` info on which the `entries` test raises, is its failure message. The archive is not built, and the temporary playlist directory is not removed.
- The regular-expression scraping of the Spotify page (og:description, og:title, the `"artists"` match, the `Spotify.Entity` JSON) and `get_playlist_title`. The strings they extract are parameters.
- Flask routing, JSON encoding, `send_file`, the SSE `data:` framing, daemon threads and `time.sleep`. The stream runs over a given sequence of snapshots, and concurrent jobs are not interleaved.
- The delayed deletion thread of `download_file`: only its delay is modelled.
- `Jobs.ConvertVideo`: the request JSON and `urlparse` are given as their fields. A JSON `null` source type is not modelled.
- `Jobs.ProcessDownload`: the single-file download functions and `process_playlist` enter as outcomes. The progress writes they make during the job are not replayed, because the job's final write replaces them.
- `Spotify.DownloadSpotify`: the fallback's own progress-hook writes are not modelled.
- `Spotify.SpotdlAttempt`: the post-run temp-file sweep and the rename onto the output path are not modelled. The FFmpeg executable path passed to spotdl is not modelled.
- Records are maps from keys to `Num`, `Str` or `Flag` values. JSON's distinction between `100` and `100.0` is not kept.
- `Progress.HookRecord`: a key present with value `None` is treated like a missing key. Float arithmetic is modelled with exact reals.
- `Sanitize.IsPrintable` approximates `str.isprintable` with the control, format, separator and private-use ranges. It does not follow the full Unicode table.
- `Text.Lower` lower-cases ASCII letters only. That is all `str.lower` changes in `.mp3` and `.zip`.
- `Delivery.Folder.Delete`: the HTTP 500 reply when `os.remove` raises is not modelled.
- Paths are POSIX paths. `os.name == 'nt'` branches are not modelled.
- SanitizeFilename: its own contract states only that the result is clean and no longer than the input; the characters that survive are stated by the lemma `Sanitize.SanitizeKeeps`, to keep the function's contract cheap for its many callers.
- TrySplit: its own contract states only the shape of a split; when a pass splits and which parts it returns are stated by `Spotify.TrySplitWhen`, `Spotify.TrySplitArtist` and `Spotify.TrySplitTitle`.
- OneFailureCostsOneItem: states only that at most one file is lost; which file, and that the others keep their order, is stated by `Playlist.FailureCostsItsFile`.
- QueryReadsBack: holds only for an artist and a title without " - " (and an artist not ending in " -"). In general it is false: the og:title "A - B - C" splits into artist A and title C, and the middle part is lost.
- JoinedTitleSplits: holds only under the same conditions as `QueryReadsBack`, for the same reason.
- OgTitleIsTheQuery: holds only under the same conditions as `QueryReadsBack`, for the same reason.
- `bot.py`, the test scripts and the timecode and music-recognition helpers are not part of this model.

## Findings

| source | as written | input that shows it | evidently intended | confidence | as-written member | corrected member |
|---|---|---|---|---|---|---|
| app.py:92-98 | A finished single-file job publishes `file_id = progress_id`, whatever path the download function returned. | The download's output resolution (downloader.py:456-467) falls back because `downloads/<id>.mp3` is missing, and returns `downloads/<id>.webm.mp3`. `download_file(<id>)` then looks for `downloads/<id>.mp3` and `downloads/<id>.zip`, and answers 404 although the job completed. | The file id names the returned file: its base name without the final `.mp3`. It equals the job id whenever the expected path was produced. | medium, not executed | Jobs.FinalRecord and Jobs.SingleFileIdAsWritten, with Jobs.AsWrittenIdMissesFallbackOutput | Jobs.CorrectedFinalRecord and Jobs.SingleFileId, with Jobs.CorrectedRecordServesReportedFile, Jobs.SingleFileIdServesReportedPath and Jobs.CorrectedRecordAgreesOnExpectedPath |

`Jobs.ProcessDownload` writes the record as written, so the job model follows the program; the corrected record is stated beside it for comparison.
