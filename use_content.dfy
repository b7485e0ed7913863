/** The content hook's upload: the storage folder for a type, the per-upload
    progress record, and the file-size text. The storage upload, its progress
    reports and the metadata write are parameters. */
module UseContent {
  import opened Collections
  import opened Strings
  import opened ContentPage

  const NotAuthenticated := "User not authenticated"

  /** A progress report from the storage upload. */
  datatype UploadProgress = UploadProgress(bytesTransferred: nat, totalBytes: nat)

  /** The storage folder a type of content goes to. */
  function FolderFor(t: ContentType): (folder: string)
    ensures t == Image <==> folder == "images"
    ensures t == Video <==> folder == "videos"
    ensures t == Document <==> folder == "documents"
  {
    match t
    case Image => "images"
    case Video => "videos"
    case Document => "documents"
  }

  /** The key of one upload in the progress record: the clock reading, an
      underscore and the file name. */
  function FileId(now: nat, fileName: string): (id: string)
    ensures StartsWith(id, NatToString(now) + "_") && EndsWith(id, fileName)
  {
    NatToString(now) + "_" + fileName
  }

  /** `formatFileSize` below one kibibyte: the number of bytes, then "Bytes". */
  function FormatFileSize(bytes: nat): (r: string)
    requires bytes < 1024
    ensures bytes == 0 ==> r == "0 Bytes"
    ensures EndsWith(r, " Bytes") && |r| > 6
    ensures AllDigits(r[..|r| - 6]) && DigitsValue(r[..|r| - 6]) == bytes
    ensures bytes > 0 ==> r[0] != '0'
  {
    var digits := NatToString(bytes);
    NatToStringValue(bytes);
    var r := digits + " Bytes";
    assert r[..|r| - 6] == digits;
    assert r[|r| - 6..] == " Bytes";
    r
  }

  class ContentStore {
    /** The signed-in user; `None` for `undefined` and for the empty id, both
        of which `!userId` treats as signed out. */
    const userId: Option<string>
    var uploadProgress: map<string, UploadProgress>
    var error: Option<string>

    constructor(userId: Option<string>)
      ensures this.userId == (if userId == Some("") then None else userId)
      ensures uploadProgress == map[] && error.None?
    {
      this.userId := if userId == Some("") then None else userId;
      uploadProgress := map[];
      error := None;
    }

    /** The progress callback: only this upload's entry is written. */
    method RecordProgress(fileId: string, p: UploadProgress)
      modifies this
      ensures uploadProgress == old(uploadProgress)[fileId := p]
      ensures forall k :: k in old(uploadProgress) && k != fileId ==> k in uploadProgress && uploadProgress[k] == old(uploadProgress)[k]
      ensures error == old(error)
    {
      uploadProgress := uploadProgress[fileId := p];
    }

    /** `uploadContent`. `reports` are the progress reports the storage upload
        makes before it ends and `uploadFailure` its error, if any; `created`
        is what the metadata write resolves with (the new item) or its error.
        The result is the new item or the rethrown error's text. The content
        type only chooses the storage folder (`FolderFor`) the upload is sent
        to, so it does not appear here. */
    method UploadContent<C>(fileName: string, now: nat, reports: seq<UploadProgress>,
                            uploadFailure: Option<string>, created: Result<C, string>)
      returns (r: Result<C, string>)
      modifies this
      ensures userId.None? ==> r == Err(NotAuthenticated) && unchanged(this)
      ensures userId.Some? && uploadFailure.None? && created.Ok? ==>
                r == Ok(created.value) && error == old(error) &&
                uploadProgress == old(uploadProgress) - {FileId(now, fileName)}
      ensures userId.Some? && (uploadFailure.Some? || created.Err?) ==>
                error == Some("Failed to upload content") &&
                r == Err(if uploadFailure.Some? then uploadFailure.value else created.error) &&
                uploadProgress == if reports == [] then old(uploadProgress)
                                  else old(uploadProgress)[FileId(now, fileName) := reports[|reports| - 1]]
    {
      if userId.None? {
        return Err(NotAuthenticated);
      }
      var fileId := FileId(now, fileName);
      for i := 0 to |reports|
        invariant error == old(error)
        invariant uploadProgress == if i == 0 then old(uploadProgress)
                                    else old(uploadProgress)[fileId := reports[i - 1]]
      {
        RecordProgress(fileId, reports[i]);
      }
      if uploadFailure.Some? {
        error := Some("Failed to upload content");
        return Err(uploadFailure.value);
      }
      if created.Err? {
        error := Some("Failed to upload content");
        return Err(created.error);
      }
      uploadProgress := uploadProgress - {fileId};
      r := Ok(created.value);
    }
  }
}
