/** CatalogPath: the parts of Poco::Path the catalog algorithms use, for
  * paths with '/' as the separator. */
module CatalogPath {
  import opened Wrappers

  /** getFileName: what follows the last separator. */
  function FileName(path: string): (name: string)
    ensures '/' !in name
    ensures |name| <= |path| && name == path[|path| - |name|..]
    ensures |name| < |path| ==> path[|path| - |name| - 1] == '/'
  {
    match FindLast(path, '/')
    case None => path
    case Some(k) => path[k + 1..]
  }

  /** getExtension: what follows the last '.' of a file name, or nothing. */
  function Extension(name: string): (ext: string)
    ensures '.' !in ext
    ensures |ext| <= |name| && ext == name[|name| - |ext|..]
  {
    match FindLast(name, '.')
    case None => []
    case Some(k) => name[k + 1..]
  }

  /** getBaseName: a file name up to its last '.'. */
  function BaseName(name: string): (base: string)
    ensures |base| <= |name| && base == name[..|base|]
    ensures |base| < |name| ==> name[|base|] == '.' && '.' !in name[|base| + 1..]
    ensures |base| == |name| ==> '.' !in name
  {
    match FindLast(name, '.')
    case None => name
    case Some(k) => name[..k]
  }

  /** tolower in the C locale. */
  function LowerChar(c: char): char
  {
    if 'A' <= c <= 'Z' then (c as int + 32) as char else c
  }

  function ToLower(s: string): (t: string)
    ensures |t| == |s| && forall k :: 0 <= k < |s| ==> t[k] == LowerChar(s[k])
  {
    seq(|s|, k requires 0 <= k < |s| => LowerChar(s[k]))
  }

  /** isDataFile: the lower-cased extension of the file is "raw" or "nxs". */
  predicate IsDataFile(path: string)
  {
    var ext := ToLower(Extension(FileName(path)));
    ext == "raw" || ext == "nxs"
  }

  /** Poco::Path(directory, name).toString(): the name inside the
    * directory. */
  function Join(directory: string, name: string): (path: string)
    ensures |name| <= |path| && path[|path| - |name|..] == name
    ensures directory != [] ==> |path| > |name| && path[|path| - |name| - 1] == '/'
  {
    if directory == [] then name
    else if directory[|directory| - 1] == '/' then directory + name
    else directory + "/" + name
  }

  /** A name with no separator is the file name of the path it is joined
    * into. */
  lemma JoinKeepsFileName(directory: string, name: string)
    requires '/' !in name
    ensures FileName(Join(directory, name)) == name
  {
    if directory == [] {
      FindLastAppend([], name, '/');
    } else if directory[|directory| - 1] == '/' {
      assert directory + name == directory[..|directory| - 1] + ['/'] + name;
      FindLastAt(directory[..|directory| - 1], name, '/');
    } else {
      FindLastAt(directory, name, '/');
    }
  }

  /** The extension of `stem + "." + ext` is ext, when ext has no '.' and
    * no separator. */
  lemma ExtensionAfterLastDot(stem: string, ext: string)
    requires '.' !in ext && '/' !in ext
    ensures Extension(FileName(stem + "." + ext)) == ext
  {
    assert stem + "." + ext == stem + ("." + ext);
    FindLastAppend(stem, "." + ext, '/');
    var base := match FindLast(stem, '/') case None => stem case Some(k) => stem[k + 1..];
    assert FileName(stem + "." + ext) == base + "." + ext;
    FindLastAt(base, ext, '.');
    assert base + "." + ext == base + ['.'] + ext;
  }

  /** A path ending in `.ext` is a data file exactly when ext, lower-cased,
    * is "raw" or "nxs". */
  lemma DataFileByExtension(stem: string, ext: string)
    requires '.' !in ext && '/' !in ext
    ensures IsDataFile(stem + "." + ext) <==> ToLower(ext) == "raw" || ToLower(ext) == "nxs"
  {
    ExtensionAfterLastDot(stem, ext);
  }

  /** Lower-casing the extensions the data-file lemmas use. */
  lemma LowerExtensions()
    ensures ToLower("raw") == "raw" && ToLower("RAW") == "raw"
    ensures ToLower("nxs") == "nxs" && |ToLower("gz")| == 2
  {
    assert ToLower("RAW")[0] == 'r';
  }

  /** Data files are recognised whatever the case of their extension. */
  lemma DataFileInCapitals(stem: string)
    ensures IsDataFile(stem + ".RAW")
  {
    LowerExtensions();
    assert stem + ".RAW" == stem + "." + "RAW";
    DataFileByExtension(stem, "RAW");
  }

  /** Only the last extension counts: a compressed raw file is not a data
    * file. */
  lemma CompressedIsNotDataFile(stem: string)
    ensures !IsDataFile(stem + ".raw.gz")
  {
    LowerExtensions();
    assert stem + ".raw.gz" == (stem + ".raw") + "." + "gz";
    DataFileByExtension(stem + ".raw", "gz");
  }
}

/** CatalogPublish: publishes a file, or a workspace saved as a NeXus file
  * together with its history, to the catalog's archive. */
module CatalogPublish {
  import opened Wrappers
  import opened CatalogPath

  /** What the user selected. */
  datatype Request = Request(inputWorkspace: string, fileName: string, nameInCatalog: string)

  /** What is uploaded: the file read, whether it is read in binary mode,
    * the name it is given in the catalog and, for a workspace, the name of
    * the history script published beside it. */
  datatype Upload = Upload(filePath: string, binary: bool, nameInCatalog: string, history: Option<string>)

  const InvalidNameMessage := "The filename can only contain characters, numbers, underscores and periods"
  const SelectOneMessage := "Please select a workspace or a file to publish. Not both."
  const NoPublishingMessage := "The catalog that you are using does not support publishing to the archives."
  const FileErrorMessage := "Error on opening file at: "

  /** The characters `^[a-zA-Z0-9_.]*$` admits. */
  predicate NameChar(c: char)
  {
    ('a' <= c <= 'z') || ('A' <= c <= 'Z') || ('0' <= c <= '9') || c == '_' || c == '.'
  }

  predicate ValidName(name: string)
  {
    forall k :: 0 <= k < |name| ==> NameChar(name[k])
  }

  /** The history script's name: the catalog name's base name with ".py". */
  function HistoryFileName(nameInCatalog: string): string
  {
    BaseName(FileName(nameInCatalog)) + ".py"
  }

  /** The NeXus file a workspace is saved to before it is published. */
  function SavedWorkspacePath(defaultSaveDirectory: string, workspace: string): string
  {
    defaultSaveDirectory + workspace + ".nxs"
  }

  /** exec: the name check, then the workspace-or-file check, then the
    * catalog's support for publishing, then opening the file. The catalog
    * lookup and the file system are parameters. */
  function Publish(request: Request, supportsPublishing: bool, defaultSaveDirectory: string,
                   canOpen: string -> bool): (r: Result<Upload>)
    ensures !ValidName(request.nameInCatalog) ==> r == Err(RuntimeError(InvalidNameMessage))
    ensures ValidName(request.nameInCatalog) && (request.inputWorkspace == [] <==> request.fileName == [])
      ==> r == Err(RuntimeError(SelectOneMessage))
    ensures r.Ok? ==> supportsPublishing && canOpen(r.value.filePath)
    ensures r.Ok? ==> r.value.binary == IsDataFile(r.value.filePath)
    ensures r.Ok? && request.fileName != [] ==>
      r.value.filePath == request.fileName && r.value.history.None?
      && r.value.nameInCatalog == (if request.nameInCatalog == [] then FileName(request.fileName) else request.nameInCatalog)
    ensures r.Ok? && request.inputWorkspace != [] ==>
      r.value.filePath == SavedWorkspacePath(defaultSaveDirectory, request.inputWorkspace)
      && r.value.nameInCatalog == (if request.nameInCatalog == [] then request.inputWorkspace else request.nameInCatalog)
      && r.value.history == Some(HistoryFileName(r.value.nameInCatalog))
  {
    if !ValidName(request.nameInCatalog) then Err(RuntimeError(InvalidNameMessage))
    else if (request.inputWorkspace == [] && request.fileName == [])
         || (request.inputWorkspace != [] && request.fileName != []) then Err(RuntimeError(SelectOneMessage))
    else if !supportsPublishing then Err(RuntimeError(NoPublishingMessage))
    else
      var isFile := request.fileName != [];
      var name :=
        if request.nameInCatalog != [] then request.nameInCatalog
        else if isFile then FileName(request.fileName)
        else request.inputWorkspace;
      var path := if isFile then request.fileName else SavedWorkspacePath(defaultSaveDirectory, request.inputWorkspace);
      if !canOpen(path) then Err(RuntimeError(FileErrorMessage + path))
      else Ok(Upload(path, IsDataFile(path), name, if isFile then None else Some(HistoryFileName(name))))
  }

  /** A published workspace travels as a NeXus file, so it is always read
    * in binary mode. */
  lemma WorkspaceUploadIsBinary(request: Request, supportsPublishing: bool, defaultSaveDirectory: string,
                                canOpen: string -> bool)
    requires request.inputWorkspace != []
    requires Publish(request, supportsPublishing, defaultSaveDirectory, canOpen).Ok?
    ensures Publish(request, supportsPublishing, defaultSaveDirectory, canOpen).value.binary
  {
    SavedWorkspaceIsDataFile(defaultSaveDirectory, request.inputWorkspace);
  }

  lemma SavedWorkspaceIsDataFile(defaultSaveDirectory: string, workspace: string)
    ensures IsDataFile(SavedWorkspacePath(defaultSaveDirectory, workspace))
  {
    assert SavedWorkspacePath(defaultSaveDirectory, workspace)
      == (defaultSaveDirectory + workspace) + "." + "nxs";
    DataFileByExtension(defaultSaveDirectory + workspace, "nxs");
    LowerExtensions();
  }

  /** A name that passes the check is its own file name, so the history of
    * "run.nxs" is "run.py". */
  lemma HistoryOfValidName(nameInCatalog: string)
    requires ValidName(nameInCatalog)
    ensures FileName(nameInCatalog) == nameInCatalog
    ensures HistoryFileName("run.nxs") == "run.py"
  {
    FindLastAppend([], nameInCatalog, '/');
    HistoryOfRunNxs();
  }

  lemma HistoryOfRunNxs()
    ensures HistoryFileName("run.nxs") == "run.py"
  {
    HistoryOfStemAndExtension("run", "nxs");
    assert "run" + ['.'] + "nxs" == "run.nxs";
  }

  /** A bare file name "stem.ext" has the history "stem.py". */
  lemma HistoryOfStemAndExtension(stem: string, ext: string)
    requires '/' !in stem && '/' !in ext && '.' !in ext
    ensures HistoryFileName(stem + ['.'] + ext) == stem + ".py"
  {
    var name := stem + ['.'] + ext;
    assert '/' !in name;
    FindLastAppend([], name, '/');
    assert [] + name == name;
    FindLastAt(stem, ext, '.');
    assert name[..|stem|] == stem;
  }

  /** The name check applies to the name the user typed: a name defaulted
    * from the uploaded file's name is never checked. */
  lemma DefaultedNameIsNotChecked()
    ensures var r := Publish(Request("", "data/my run.txt", ""), true, "", _ => true);
      r.Ok? && r.value.nameInCatalog == "my run.txt" && !ValidName(r.value.nameInCatalog)
  {
    FindLastAt("data", "my run.txt", '/');
    assert "data/my run.txt" == "data" + ['/'] + "my run.txt";
    assert !NameChar("my run.txt"[2]);
  }
}

/** CatalogDownloadDataFiles: finds every requested file in the archive, or
  * downloads it into the download directory. */
module CatalogDownloadDataFiles {
  import opened Wrappers
  import opened CatalogPath

  /** The catalog and the file system, as far as the download sees them. */
  datatype Services = Services(
    fileLocation: int -> string,
    transformArchivePath: string -> string,
    canOpen: string -> bool,
    downloadURL: int -> string,
    download: (string, string) -> bool)

  const NoDownloadingMessage := "The catalog that you are using does not support external downloading."

  /** The archive path of a file, in the user's operating system. */
  function ArchivePath(s: Services, fileId: int): string
  {
    s.transformArchivePath(s.fileLocation(fileId))
  }

  /** A file neither in the archive nor downloadable. */
  predicate DownloadFails(s: Services, downloadPath: string, fileId: int, fileName: string)
  {
    !s.canOpen(ArchivePath(s, fileId)) && !s.download(s.downloadURL(fileId), Join(downloadPath, fileName))
  }

  /** Where one file ends up: in the archive if it can be opened there, else
    * downloaded into the download directory, else nowhere (""). */
  function Location(s: Services, downloadPath: string, fileId: int, fileName: string): (location: string)
    ensures s.canOpen(ArchivePath(s, fileId)) ==> location == ArchivePath(s, fileId)
    ensures !s.canOpen(ArchivePath(s, fileId)) ==>
      location == (if DownloadFails(s, downloadPath, fileId, fileName) then "" else Join(downloadPath, fileName))
  {
    var archived := ArchivePath(s, fileId);
    if s.canOpen(archived) then archived
    else
      var path := Join(downloadPath, fileName);
      if s.download(s.downloadURL(fileId), path) then path else ""
  }

  function Locations(s: Services, downloadPath: string, fileIds: seq<int>, fileNames: seq<string>): (ls: seq<string>)
    requires |fileNames| >= |fileIds|
    ensures |ls| == |fileIds|
    ensures forall i :: 0 <= i < |fileIds| ==> ls[i] == Location(s, downloadPath, fileIds[i], fileNames[i])
  {
    if |fileIds| == 0 then []
    else Locations(s, downloadPath, fileIds[..|fileIds| - 1], fileNames) + [Location(s, downloadPath, fileIds[|fileIds| - 1], fileNames[|fileIds| - 1])]
  }

  predicate AnyFails(s: Services, downloadPath: string, fileIds: seq<int>, fileNames: seq<string>)
    requires |fileNames| >= |fileIds|
  {
    exists i :: 0 <= i < |fileIds| && DownloadFails(s, downloadPath, fileIds[i], fileNames[i])
  }

  /** One more file: its location is appended, and the run fails when it
    * did or when this file fails. */
  lemma LocationsStep(s: Services, downloadPath: string, fileIds: seq<int>, fileNames: seq<string>, i: nat)
    requires |fileNames| >= |fileIds| && i < |fileIds|
    ensures Locations(s, downloadPath, fileIds[..i + 1], fileNames)
         == Locations(s, downloadPath, fileIds[..i], fileNames) + [Location(s, downloadPath, fileIds[i], fileNames[i])]
    ensures AnyFails(s, downloadPath, fileIds[..i + 1], fileNames)
        <==> AnyFails(s, downloadPath, fileIds[..i], fileNames) || DownloadFails(s, downloadPath, fileIds[i], fileNames[i])
  {
    assert fileIds[..i + 1][..i] == fileIds[..i];
  }

  /** The algorithm's state: its FileLocations output, its progress counter
    * and whether it was cancelled. */
  class Downloader {
    var fileLocations: seq<string>
    var prog: real
    var cancelled: bool

    constructor ()
      ensures fileLocations == [] && prog == 0.0 && !cancelled
    {
      fileLocations := [];
      prog := 0.0;
      cancelled := false;
    }

    /** exec: one location per file id, in order; a failed download cancels
      * the algorithm and leaves an empty entry. */
    method Exec(catalog: Option<Services>, fileIds: seq<int>, fileNames: seq<string>, downloadPath: string)
      returns (r: Result<()>)
      requires |fileNames| >= |fileIds|
      modifies this
      ensures catalog.None? ==> r == Err(RuntimeError(NoDownloadingMessage)) && unchanged(this)
      ensures catalog.Some? ==>
        r.Ok?
        && fileLocations == Locations(catalog.value, downloadPath, fileIds, fileNames)
        && prog == 0.1 * |fileIds| as real
        && cancelled == (old(cancelled) || AnyFails(catalog.value, downloadPath, fileIds, fileNames))
    {
      if catalog.None? {
        return Err(RuntimeError(NoDownloadingMessage));
      }
      var s := catalog.value;
      var locations: seq<string> := [];
      prog := 0.0;
      ghost var wasCancelled := cancelled;
      for i := 0 to |fileIds|
        invariant locations == Locations(s, downloadPath, fileIds[..i], fileNames)
        invariant prog == 0.1 * i as real
        invariant cancelled == (wasCancelled || AnyFails(s, downloadPath, fileIds[..i], fileNames))
      {
        LocationsStep(s, downloadPath, fileIds, fileNames, i);
        prog := prog + 0.1;
        var fileLocation := s.transformArchivePath(s.fileLocation(fileIds[i]));
        if s.canOpen(fileLocation) {
          locations := locations + [fileLocation];
        } else {
          var downloaded := DownloadAndSave(s, s.downloadURL(fileIds[i]), fileNames[i], downloadPath);
          locations := locations + [downloaded];
        }
      }
      assert fileIds[..|fileIds|] == fileIds;
      fileLocations := locations;
      r := Ok(());
    }

    /** doDownloadandSavetoLocalDrive: the saved file's path, or "" and a
      * cancelled algorithm when the download fails. */
    method DownloadAndSave(s: Services, url: string, fileName: string, downloadPath: string) returns (path: string)
      modifies this
      ensures path == (if s.download(url, Join(downloadPath, fileName)) then Join(downloadPath, fileName) else "")
      ensures cancelled == (old(cancelled) || !s.download(url, Join(downloadPath, fileName)))
      ensures fileLocations == old(fileLocations) && prog == old(prog)
    {
      path := Join(downloadPath, fileName);
      if !s.download(url, path) {
        cancelled := true;
        return "";
      }
    }
  }

  /** The fraction reported to progress after the k-th of n files is k/n. */
  lemma ProgressFraction(k: nat, n: nat)
    requires 0 < k <= n
    ensures (0.1 * k as real) / (n as real / 10.0) == k as real / n as real
    ensures (0.1 * k as real) / (n as real / 10.0) <= 1.0
  {
    var x := n as real / 10.0;
    var q := (0.1 * k as real) / x;
    var f := k as real / n as real;
    assert q * x == 0.1 * k as real;
    assert f * n as real == k as real;
    assert f * x == 0.1 * k as real;
    assert (q - f) * x == 0.0;
  }

  /** Every entry is the archive path, the download path of its file name,
    * or empty after a failed download; a downloaded file keeps its name. */
  lemma LocationKinds(s: Services, downloadPath: string, fileIds: seq<int>, fileNames: seq<string>, i: nat)
    requires |fileNames| >= |fileIds| && i < |fileIds| && '/' !in fileNames[i]
    ensures var l := Locations(s, downloadPath, fileIds, fileNames)[i];
      || (l == ArchivePath(s, fileIds[i]) && s.canOpen(l))
      || (l == Join(downloadPath, fileNames[i]) && FileName(l) == fileNames[i])
      || (l == "" && DownloadFails(s, downloadPath, fileIds[i], fileNames[i]))
  {
    JoinKeepsFileName(downloadPath, fileNames[i]);
  }
}
