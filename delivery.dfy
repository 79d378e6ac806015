/** Serving and deleting converted files (app.py `download_file` and
    `delete_file`). The upload folder is the set of paths it holds; a job's
    file is `downloads/<file_id>.mp3` for a single track and
    `downloads/<file_id>.zip` for a playlist archive. */
module Delivery {
  import opened Wrappers
  import opened Text
  import opened Progress

  const UploadFolder := "downloads"
  const NotFoundMessage := "Fichier non trouvé"
  const DeletedMessage := "Fichier supprimé"

  function Mp3Path(fileId: string): string { JoinPath(UploadFolder, fileId + ".mp3") }
  function ZipPath(fileId: string): string { JoinPath(UploadFolder, fileId + ".zip") }

  /** The two paths of one file id never coincide. */
  lemma PathsDiffer(fileId: string)
    ensures Mp3Path(fileId) != ZipPath(fileId)
  {
    var m, z := Mp3Path(fileId), ZipPath(fileId);
    assert m[|m| - 1] == '3' && z[|z| - 1] == 'p';
  }

  /** A file id without slashes names a file directly inside the folder. */
  lemma {:induction false} PathsInsideFolder(fileId: string, ext: string)
    requires '/' !in fileId && '/' !in ext
    ensures JoinPath(UploadFolder, fileId + ext) == UploadFolder + "/" + fileId + ext
    ensures Basename(JoinPath(UploadFolder, fileId + ext)) == fileId + ext
  {
    var name := fileId + ext;
    assert !StartsWith(name, "/") by {
      if name != [] { assert name[0] in fileId || name[0] in ext; }
    }
    var p := UploadFolder + "/" + name;
    assert p[|UploadFolder|] == '/';
    assert forall i :: |UploadFolder| < i < |p| ==> p[i] == name[i - |UploadFolder| - 1];
    assert LastIndexOf(p, '/') == |UploadFolder|;
    assert p[|UploadFolder| + 1..] == name;
  }

  /** The file `download_file` sends and its MIME type. */
  datatype Served = Served(path: string, mimetype: string)

  /** The `.mp3` when it exists, else the `.zip`, else nothing (404). */
  function ServedFile(files: set<string>, fileId: string): (r: Option<Served>)
    ensures r.None? <==> Mp3Path(fileId) !in files && ZipPath(fileId) !in files
    ensures r.Some? ==> r.value.path in files
    ensures Mp3Path(fileId) in files ==> r == Some(Served(Mp3Path(fileId), "audio/mpeg"))
    ensures Mp3Path(fileId) !in files && ZipPath(fileId) in files ==> r == Some(Served(ZipPath(fileId), "application/zip"))
  {
    if Mp3Path(fileId) in files then Some(Served(Mp3Path(fileId), "audio/mpeg"))
    else if ZipPath(fileId) in files then Some(Served(ZipPath(fileId), "application/zip"))
    else None
  }

  const MiB: real := 1048576.0

  /** `estimated_download_time`: about one MiB per second plus thirty seconds
      of margin, and never under a minute. */
  function DeleteDelay(size: nat): (d: real)
    ensures d >= 60.0
    ensures d >= size as real / MiB + 30.0
    ensures d == 60.0 || d == size as real / MiB + 30.0
  {
    Max(60.0, size as real / MiB + 30.0)
  }

  /** A larger file is never deleted sooner. */
  lemma DeleteDelayMonotone(a: nat, b: nat)
    requires a <= b
    ensures DeleteDelay(a) <= DeleteDelay(b)
  {
    assert a as real / MiB <= b as real / MiB;
  }

  /** The sleep before deletion, `int(estimated_download_time)`, is at least a
      minute. */
  lemma SleepAtLeastAMinute(size: nat)
    ensures Trunc(DeleteDelay(size)) >= 60
  {
  }

  /** The case-insensitive extension test of the requested name. */
  predicate HasDeliveredExtension(name: string) {
    EndsWith(Lower(name), ".mp3") || EndsWith(Lower(name), ".zip")
  }

  /** `download_name`: the requested name, completed with the served file's
      extension when it ends in neither `.mp3` nor `.zip`; the file's own
      name when none was requested. */
  function DownloadName(requested: Option<string>, filePath: string): (name: string)
    ensures requested.Some? && requested.value != "" ==> StartsWith(name, requested.value)
    ensures requested.Some? && requested.value != "" && HasDeliveredExtension(requested.value) ==> name == requested.value
    ensures requested.Some? && requested.value != "" && !HasDeliveredExtension(requested.value) ==>
              name == requested.value + Extension(filePath)
    ensures requested.None? || requested.value == "" ==> name == Basename(filePath)
  {
    if requested.Some? && requested.value != "" then
      if HasDeliveredExtension(requested.value) then requested.value
      else requested.value + Extension(filePath)
    else Basename(filePath)
  }

  /** Lower-casing leaves a lower-case suffix in place. */
  lemma {:induction false} LowerKeepsSuffix(s: string, ext: string)
    requires Lower(ext) == ext
    ensures EndsWith(Lower(s + ext), ext)
  {
    var l := Lower(s + ext);
    assert l[|s|..] == ext by {
      forall i | 0 <= i < |ext| ensures l[|s| + i] == ext[i] {
        assert l[|s| + i] == LowerChar(ext[i]);
        assert Lower(ext)[i] == LowerChar(ext[i]);
      }
    }
  }

  /** The extension of a file directly inside the folder. */
  lemma {:induction false} ServedExtension(fileId: string, ext: string)
    requires '/' !in fileId && (ext == ".mp3" || ext == ".zip")
    requires exists j :: 0 <= j < |fileId| && fileId[j] != '.'
    ensures Extension(JoinPath(UploadFolder, fileId + ext)) == ext
  {
    assert '/' !in ext;
    assert ext[0] == '.' && forall i :: 0 < i < |ext| ==> ext[i] != '.';
    SuffixIsExtension(fileId, ext);
  }

  /** A one-dot suffix after a stem that is not all dots is the extension of
      the file in the folder. */
  lemma SuffixIsExtension(fileId: string, ext: string)
    requires '/' !in fileId && '/' !in ext
    requires |ext| > 0 && ext[0] == '.' && forall i :: 0 < i < |ext| ==> ext[i] != '.'
    requires exists j :: 0 <= j < |fileId| && fileId[j] != '.'
    ensures Extension(JoinPath(UploadFolder, fileId + ext)) == ext
  {
    PathsInsideFolder(fileId, ext);
    var b := fileId + ext;
    LastDotBeforeSuffix(fileId, ext);
    var j :| 0 <= j < |fileId| && fileId[j] != '.';
    assert b[j] != '.';
    assert b[|fileId|..] == ext;
  }

  /** The last dot of a name ending in a one-dot suffix is the suffix's dot. */
  lemma LastDotBeforeSuffix(stem: string, ext: string)
    requires |ext| > 0 && ext[0] == '.' && forall i :: 0 < i < |ext| ==> ext[i] != '.'
    ensures LastIndexOf(stem + ext, '.') == |stem|
  {
    var b := stem + ext;
    assert b[|stem|] == '.';
    assert forall i :: |stem| < i < |b| ==> b[i] == ext[i - |stem|];
  }

  /** What `download_file` answers: 404, or the file to send, the name the
      browser is offered and the seconds to wait before deleting the file. */
  datatype DownloadReply = FileNotFound | Send(served: Served, downloadName: string, deleteAfter: int)

  function DownloadFile(files: set<string>, fileId: string, requested: Option<string>, size: nat): (r: DownloadReply)
    ensures r.FileNotFound? <==> ServedFile(files, fileId).None?
    ensures r.Send? ==> r.served == ServedFile(files, fileId).value
                        && r.downloadName == DownloadName(requested, r.served.path)
                        && r.deleteAfter == Trunc(DeleteDelay(size)) >= 60
  {
    match ServedFile(files, fileId)
    case None => FileNotFound
    case Some(served) =>
      SleepAtLeastAMinute(size);
      Send(served, DownloadName(requested, served.path), Trunc(DeleteDelay(size)))
  }

  /** The name offered for a file directly inside the folder ends in its
      extension, letter case aside. */
  lemma {:induction false} NameForServedPath(requested: Option<string>, fileId: string, ext: string)
    requires '/' !in fileId && (ext == ".mp3" || ext == ".zip")
    requires exists j :: 0 <= j < |fileId| && fileId[j] != '.'
    ensures HasDeliveredExtension(DownloadName(requested, JoinPath(UploadFolder, fileId + ext)))
  {
    var path := JoinPath(UploadFolder, fileId + ext);
    assert Lower(ext) == ext;
    if requested.Some? && requested.value != "" {
      if !HasDeliveredExtension(requested.value) {
        ServedExtension(fileId, ext);
        LowerKeepsSuffix(requested.value, ext);
      }
    } else {
      PathsInsideFolder(fileId, ext);
      LowerKeepsSuffix(fileId, ext);
    }
  }

  /** Whatever name is requested, the browser is offered a name ending in
      `.mp3` or `.zip`, letter case aside. */
  lemma {:induction false} OfferedNameHasExtension(files: set<string>, fileId: string, requested: Option<string>, size: nat)
    requires '/' !in fileId
    requires exists j :: 0 <= j < |fileId| && fileId[j] != '.'
    requires DownloadFile(files, fileId, requested, size).Send?
    ensures HasDeliveredExtension(DownloadFile(files, fileId, requested, size).downloadName)
  {
    var r := DownloadFile(files, fileId, requested, size);
    if r.served.path == Mp3Path(fileId) {
      NameForServedPath(requested, fileId, ".mp3");
    } else {
      NameForServedPath(requested, fileId, ".zip");
    }
  }

  /** What `delete_file` answers: its HTTP status and message. */
  datatype Reply = Reply(status: nat, message: string)

  /** The folder once both files of `fileId` are removed. */
  function AfterDelete(files: set<string>, fileId: string): (rest: set<string>)
    ensures Mp3Path(fileId) !in rest && ZipPath(fileId) !in rest
    ensures forall p :: p in files && p != Mp3Path(fileId) && p != ZipPath(fileId) ==> p in rest
    ensures rest <= files
  {
    files - {Mp3Path(fileId), ZipPath(fileId)}
  }

  /** Success exactly when the `.mp3` or the `.zip` existed. */
  function DeleteReply(files: set<string>, fileId: string): (r: Reply)
    ensures r.status == 200 <==> Mp3Path(fileId) in files || ZipPath(fileId) in files
    ensures r.status == 200 || r.status == 404
    ensures r.message == if r.status == 200 then DeletedMessage else NotFoundMessage
  {
    if Mp3Path(fileId) in files || ZipPath(fileId) in files then Reply(200, DeletedMessage)
    else Reply(404, NotFoundMessage)
  }

  /** Deleting twice: the second request finds nothing and changes nothing. */
  lemma {:induction false} DeleteTwice(files: set<string>, fileId: string)
    ensures DeleteReply(AfterDelete(files, fileId), fileId).status == 404
    ensures AfterDelete(AfterDelete(files, fileId), fileId) == AfterDelete(files, fileId)
    ensures ServedFile(AfterDelete(files, fileId), fileId).None?
  {
    var once := AfterDelete(files, fileId);
    assert Mp3Path(fileId) !in once && ZipPath(fileId) !in once;
  }

  /** The upload folder, whose files the request handlers remove. */
  class Folder {
    var files: set<string>

    constructor (files: set<string>)
      ensures this.files == files
    {
      this.files := files;
    }

    /** `os.remove(path)` after an `os.path.exists(path)` test. */
    method Remove(path: string)
      modifies this
      ensures files == old(files) - {path}
    {
      files := files - {path};
    }

    /** `delete_file`: removes the `.mp3` and then the `.zip` of `fileId`,
        noting whether either existed. */
    method Delete(fileId: string) returns (r: Reply)
      modifies this
      ensures r == DeleteReply(old(files), fileId)
      ensures files == AfterDelete(old(files), fileId)
    {
      var deleted := false;
      if Mp3Path(fileId) in files {
        Remove(Mp3Path(fileId));
        deleted := true;
      }
      if ZipPath(fileId) in files {
        Remove(ZipPath(fileId));
        deleted := true;
      }
      if deleted {
        r := Reply(200, DeletedMessage);
      } else {
        r := Reply(404, NotFoundMessage);
      }
    }
  }
}
