/**
 * BlobController: the request checks in front of the image store. The
 * storage service itself (SAS URL generation, upload, delete) is a parameter
 * whose answer is a value or `None` for a thrown exception (for delete, whether
 * the call returns at all), which the actions turn into a 500.
 */
module BlobController {
  import opened Wrappers
  import opened Text
  import opened Api

  /** The largest accepted upload, 2 MiB; a file of exactly this size passes. */
  const MaxFileSize: int := 2 * 1024 * 1024

  /** Content types accepted after lowercasing. */
  const AllowedTypes: seq<string> := ["image/jpeg", "image/png", "image/gif", "image/webp", "image/avif"]

  /** The uploaded multipart file: its client-side name, size in bytes and declared type. */
  datatype FormFile = FormFile(fileName: string, length: int, contentType: string)

  /**
   * GetSasToken (administrators only): 400 for an absent, empty or
   * white-space name, before the service is asked; otherwise the service's
   * URL, or 500 when it throws.
   */
  function GetSasToken(caller: Caller, fileName: Option<string>, sasUrl: string -> Option<string>): (r: Response<string>)
    ensures !IsAdmin(caller) ==> r.Fail? && (r.error == Unauthorized <==> caller.Anonymous?)
    ensures IsAdmin(caller) && IsBlank(fileName) ==> r == Fail(BadRequest(FileNameRequired))
    ensures r.Ok? <==> IsAdmin(caller) && !IsBlank(fileName) && sasUrl(fileName.value).Some?
    ensures r.Ok? ==> r.value == sasUrl(fileName.value).value
  {
    match Authorize(caller, RequireRole(AdminRole))
    case Some(e) => Fail(e)
    case None =>
      if IsBlank(fileName) then Fail(BadRequest(FileNameRequired))
      else
        match sasUrl(fileName.value)
        case None => Fail(ServerError)
        case Some(url) => Ok(url)
  }

  /** Position of the last '.' or '/' before `j`, if there is one. */
  function LastMark(s: string, j: nat): (k: Option<nat>)
    requires j <= |s|
    ensures k.Some? ==> k.value < j && (s[k.value] == '.' || s[k.value] == '/')
    ensures k.Some? ==> forall i :: k.value < i < j ==> s[i] != '.' && s[i] != '/'
    ensures k.None? ==> forall i :: 0 <= i < j ==> s[i] != '.' && s[i] != '/'
  {
    if j == 0 then None
    else if s[j - 1] == '.' || s[j - 1] == '/' then Some(j - 1)
    else LastMark(s, j - 1)
  }

  /** `path[i..]` is an extension: a '.' that is not last, followed by no '.' and no '/'. */
  predicate ExtensionAt(path: string, i: int) {
    0 <= i < |path| - 1 && path[i] == '.' && forall k :: i < k < |path| ==> path[k] != '.' && path[k] != '/'
  }

  /**
   * `Path.GetExtension` with '/' as the only directory separator: from the
   * last '.' of the last path segment to the end, or "" when the segment has
   * no '.' or ends with one.
   */
  function Extension(path: string): (ext: string)
    ensures ext != "" <==> exists i :: ExtensionAt(path, i)
    ensures ext != "" ==> ExtensionAt(path, |path| - |ext|) && ext == path[|path| - |ext|..]
  {
    match LastMark(path, |path|)
    case None => ""
    case Some(k) =>
      if path[k] == '.' && k < |path| - 1 then
        assert ExtensionAt(path, k);
        path[k..]
      else
        assert forall i :: !ExtensionAt(path, i);
        ""
  }

  /** The name the upload is stored under: the caller-supplied unique id, then the original extension. */
  function BlobName(guid: string, fileName: string): (name: string)
    ensures |name| >= |guid| && name[..|guid|] == guid
    ensures Extension(fileName) == name[|guid|..]
  {
    guid + Extension(fileName)
  }

  /**
   * Upload (administrators only): 400 for no file or an empty one, then for
   * one over 2 MiB, then for a content type outside the allow-list
   * (compared lowercased); otherwise the file goes to the store under
   * `BlobName(guid, ...)` and the store's URL is returned, or 500 when it throws.
   */
  function Upload(caller: Caller, file: Option<FormFile>, guid: string, store: string -> Option<string>): (r: Response<string>)
    ensures !IsAdmin(caller) ==> r.Fail? && (r.error == Unauthorized <==> caller.Anonymous?)
    ensures IsAdmin(caller) && (file.None? || file.value.length == 0) ==> r == Fail(BadRequest(NoFileUploaded))
    ensures IsAdmin(caller) && file.Some? && file.value.length != 0 && file.value.length > MaxFileSize ==>
      r == Fail(BadRequest(FileTooLarge))
    ensures (IsAdmin(caller) && file.Some? && file.value.length != 0 && file.value.length <= MaxFileSize
             && Lower(file.value.contentType) !in AllowedTypes) ==> r == Fail(BadRequest(UnsupportedFileType))
    ensures r.Ok? <==>
      && IsAdmin(caller) && file.Some? && file.value.length != 0 && file.value.length <= MaxFileSize
      && Lower(file.value.contentType) in AllowedTypes
      && store(BlobName(guid, file.value.fileName)).Some?
    ensures r.Ok? ==> r.value == store(BlobName(guid, file.value.fileName)).value
  {
    match Authorize(caller, RequireRole(AdminRole))
    case Some(e) => Fail(e)
    case None =>
      if file.None? || file.value.length == 0 then Fail(BadRequest(NoFileUploaded))
      else if file.value.length > MaxFileSize then Fail(BadRequest(FileTooLarge))
      else if Lower(file.value.contentType) !in AllowedTypes then Fail(BadRequest(UnsupportedFileType))
      else
        match store(BlobName(guid, file.value.fileName))
        case None => Fail(ServerError)
        case Some(url) => Ok(url)
  }

  /**
   * Delete (administrators only): 400 only for an absent or empty name, so a
   * white-space name reaches the service. `completes(name)` is whether the
   * service call returns without throwing; the flag it returns (whether a
   * blob existed) is discarded, so a missing blob is still NoContent.
   */
  function Delete(caller: Caller, fileName: Option<string>, completes: string -> bool): (r: Response<()>)
    ensures !IsAdmin(caller) ==> r.Fail? && (r.error == Unauthorized <==> caller.Anonymous?)
    ensures IsAdmin(caller) && IsNullOrEmpty(fileName) ==> r == Fail(BadRequest(FileNameRequired))
    ensures r == NoContent <==> IsAdmin(caller) && !IsNullOrEmpty(fileName) && completes(fileName.value)
    ensures IsAdmin(caller) && !IsNullOrEmpty(fileName) && !completes(fileName.value) ==> r == Fail(ServerError)
  {
    match Authorize(caller, RequireRole(AdminRole))
    case Some(e) => Fail(e)
    case None =>
      if IsNullOrEmpty(fileName) then Fail(BadRequest(FileNameRequired))
      else if completes(fileName.value) then NoContent
      else Fail(ServerError)
  }

  /**
   * The two name checks differ on white space: every non-empty all-space
   * name is refused by GetSasToken without asking the service, and is
   * handed to the service by Delete.
   */
  lemma WhiteSpaceNamesSplitTheChecks(caller: Caller, name: string, sasUrl: string -> Option<string>,
                                      completes: string -> bool)
    requires IsAdmin(caller)
    requires name != [] && forall i :: 0 <= i < |name| ==> IsDotNetSpace(name[i])
    ensures GetSasToken(caller, Some(name), sasUrl) == Fail(BadRequest(FileNameRequired))
    ensures Delete(caller, Some(name), completes) == if completes(name) then NoContent else Fail(ServerError)
  {
  }

  /** A '.' is the last one of its path when no '.' or '/' follows: at most one position qualifies. */
  lemma ExtensionAtUnique(path: string, i: int, j: int)
    requires ExtensionAt(path, i) && ExtensionAt(path, j)
    ensures i == j
  {
  }

  /**
   * The stored name carries the uploaded file's extension: for any unique
   * id without '.' or '/', the extension of `BlobName(guid, f)` is that of `f`.
   */
  lemma BlobNameExtension(guid: string, fileName: string)
    requires forall i :: 0 <= i < |guid| ==> guid[i] != '.' && guid[i] != '/'
    ensures Extension(BlobName(guid, fileName)) == Extension(fileName)
  {
    var ext := Extension(fileName);
    var name := BlobName(guid, fileName);
    if ext == "" {
      assert name == guid;
      forall i ensures !ExtensionAt(name, i) {
        if 0 <= i < |name| {
          assert name[i] == guid[i];
        }
      }
    } else {
      var k := |fileName| - |ext|;
      assert ExtensionAt(fileName, k);
      assert name == guid + fileName[k..];
      assert ExtensionAt(name, |guid|) by {
        forall m | |guid| < m < |name| ensures name[m] != '.' && name[m] != '/' {
          assert name[m] == fileName[k + m - |guid|];
        }
      }
      var e2 := Extension(name);
      ExtensionAtUnique(name, |guid|, |name| - |e2|);
      assert e2 == name[|guid|..] == ext;
    }
  }

  /** Upload compares the content type lowercased: "IMAGE/PNG" and "image/png" are treated alike. */
  lemma UploadIgnoresTypeCase(caller: Caller, name: string, length: int, contentType: string, guid: string,
                              store: string -> Option<string>)
    ensures Upload(caller, Some(FormFile(name, length, contentType)), guid, store)
         == Upload(caller, Some(FormFile(name, length, Lower(contentType))), guid, store)
  {
    LowerIdempotent(contentType);
  }

  /** An empty name is refused by GetSasToken without consulting the service. */
  lemma EmptyNameGetsNoToken(caller: Caller, sasUrl: string -> Option<string>)
    requires IsAdmin(caller)
    ensures GetSasToken(caller, Some(""), sasUrl) == Fail(BadRequest(FileNameRequired))
  {
  }

  /** A single space is refused by GetSasToken but handed to the store by Delete. */
  lemma SpaceNameChecksDiffer(caller: Caller, sasUrl: string -> Option<string>)
    requires IsAdmin(caller)
    ensures GetSasToken(caller, Some(" "), sasUrl) == Fail(BadRequest(FileNameRequired))
    ensures Delete(caller, Some(" "), (n: string) => true) == NoContent
  {
    assert IsDotNetSpace(" "[0]);
  }

  /** Exactly 2 MiB passes the size check and one byte more does not. */
  lemma SizeCapIsInclusive(caller: Caller, name: string, guid: string, store: string -> Option<string>)
    requires IsAdmin(caller)
    ensures Upload(caller, Some(FormFile(name, MaxFileSize + 1, "image/png")), guid, store) == Fail(BadRequest(FileTooLarge))
    ensures Upload(caller, Some(FormFile(name, MaxFileSize, "IMAGE/PNG")), guid, store) != Fail(BadRequest(FileTooLarge))
    ensures Upload(caller, Some(FormFile(name, MaxFileSize, "IMAGE/PNG")), guid, store).Ok? <==>
      store(BlobName(guid, name)).Some?
  {
    assert Lower("IMAGE/PNG") == "image/png";
  }

  /** The stored name keeps the uploaded file's extension: "photos/cat.JPG" is stored as guid + ".JPG". */
  lemma BlobNameKeepsExtension(guid: string)
    ensures BlobName(guid, "photos/cat.JPG") == guid + ".JPG"
    ensures BlobName(guid, "archive.tar.gz") == guid + ".gz"
  {
    assert ExtensionAt("photos/cat.JPG", 10);
    assert ExtensionAt("archive.tar.gz", 11);
  }

  /** A '.' in a directory name or at the very end gives no extension: the stored name is the bare guid. */
  lemma BlobNameWithoutExtension(guid: string)
    ensures BlobName(guid, "v1.2/readme") == guid
    ensures BlobName(guid, "trailing.") == guid
  {
    assert "v1.2/readme"[4] == '/';
  }
}
