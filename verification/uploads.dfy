/** The task-attachment upload rules of src/middlewares/multer.middleware.js: the
    MIME allowlist filter, the stored file name, and the limits of the
    `uploadTaskAttachments` middleware (field "attachments", at most 5 files, each
    at most 10000 * 1024 * 1024 bytes). Files are examined in arrival order and the
    first one that breaks a rule fails the whole request. */
module Uploads {
  import opened Wrappers
  import opened Constants

  const AttachmentsField: string := "attachments"
  const MaxTaskFiles: nat := 5
  const MaxFileSize: nat := 10000 * 1024 * 1024
  const UploadDirectory: string := "public/images/"

  /** A file part as it arrives in the multipart request. */
  datatype IncomingFile = IncomingFile(fieldname: string, mimetype: string, size: nat)

  /** A file stored on disk and handed to the controller as part of `req.files`. */
  datatype UploadedFile = UploadedFile(fieldname: string, mimetype: string, size: nat, filename: string, path: string)

  datatype UploadError = UnsupportedFileType | UnexpectedFile(field: string) | FileTooLarge(field: string)

  datatype FilterDecision = Accept | Reject(error: UploadError)

  /** fileFilter: a file is accepted iff its MIME type is on the allowlist; any other
      type is refused with an "Unsupported file type" error. */
  function FileFilter(mimetype: string): (r: FilterDecision)
    ensures r.Accept? <==> mimetype in AllowedMimeTypes()
    ensures r.Reject? ==> r.error == UnsupportedFileType
  {
    if mimetype in AllowedMimeTypes() then Accept else Reject(UnsupportedFileType)
  }

  /** The disk name of a stored file: its field name, a dash and a unique suffix
      (a timestamp and a random number, here an opaque parameter). */
  function StoredFilename(fieldname: string, suffix: string): (r: string)
    ensures |r| == |fieldname| + 1 + |suffix|
    ensures r[..|fieldname|] == fieldname && r[|fieldname|] == '-' && r[|fieldname| + 1..] == suffix
  {
    fieldname + "-" + suffix
  }

  /** For one field name, distinct suffixes give distinct file names. */
  lemma StoredFilenameInjective(fieldname: string, s1: string, s2: string)
    ensures StoredFilename(fieldname, s1) == StoredFilename(fieldname, s2) ==> s1 == s2
  {
  }

  /** A file the task-upload middleware keeps. */
  predicate FileAllowed(f: IncomingFile) {
    f.fieldname == AttachmentsField && FileFilter(f.mimetype).Accept? && f.size <= MaxFileSize
  }

  function StoredFile(f: IncomingFile, suffix: string): UploadedFile {
    var name := StoredFilename(f.fieldname, suffix);
    UploadedFile(f.fieldname, f.mimetype, f.size, name, UploadDirectory + name)
  }

  /** The files from `files` on, after `taken` files were already accepted. */
  function AcceptFrom(files: seq<IncomingFile>, suffixes: seq<string>, taken: nat): (r: Result<seq<UploadedFile>, UploadError>)
    requires |suffixes| == |files|
    requires taken <= MaxTaskFiles
    decreases |files|
    ensures r.Success? <==> taken + |files| <= MaxTaskFiles && forall i :: 0 <= i < |files| ==> FileAllowed(files[i])
    ensures r.Success? ==> |r.value| == |files|
    ensures r.Success? ==> forall i :: 0 <= i < |files| ==> r.value[i] == StoredFile(files[i], suffixes[i])
  {
    if files == [] then Success([])
    else
      var f := files[0];
      if f.fieldname != AttachmentsField || taken >= MaxTaskFiles then
        Failure(UnexpectedFile(f.fieldname))
      else if FileFilter(f.mimetype).Reject? then
        Failure(FileFilter(f.mimetype).error)
      else if f.size > MaxFileSize then
        Failure(FileTooLarge(f.fieldname))
      else
        match AcceptFrom(files[1..], suffixes[1..], taken + 1)
        case Failure(e) =>
          assert !(forall i :: 0 <= i < |files| ==> FileAllowed(files[i])) || taken + |files| > MaxTaskFiles by {
            if taken + |files| <= MaxTaskFiles {
              var j :| 0 <= j < |files[1..]| && !FileAllowed(files[1..][j]);
              assert !FileAllowed(files[j + 1]);
            }
          }
          Failure(e)
        case Success(rest) =>
          var r := [StoredFile(f, suffixes[0])] + rest;
          assert forall i :: 0 <= i < |files| ==> FileAllowed(files[i]) by {
            forall i | 0 <= i < |files| ensures FileAllowed(files[i]) {
              if i > 0 { assert files[i] == files[1..][i - 1]; }
            }
          }
          assert forall i :: 0 <= i < |files| ==> r[i] == StoredFile(files[i], suffixes[i]) by {
            forall i | 0 <= i < |files| ensures r[i] == StoredFile(files[i], suffixes[i]) {
              if i > 0 { assert r[i] == rest[i - 1]; assert files[i] == files[1..][i - 1]; }
            }
          }
          Success(r)
  }

  /** uploadTaskAttachments: the request's files are kept, in order, iff there are at
      most five, all under "attachments", all of an allowed type and none too large. */
  function AcceptTaskUploads(files: seq<IncomingFile>, suffixes: seq<string>): (r: Result<seq<UploadedFile>, UploadError>)
    requires |suffixes| == |files|
    ensures r.Success? <==> |files| <= MaxTaskFiles && forall i :: 0 <= i < |files| ==> FileAllowed(files[i])
    ensures r.Success? ==> |r.value| == |files|
    ensures r.Success? ==> forall i :: 0 <= i < |files| ==>
      r.value[i].fieldname == AttachmentsField && r.value[i].mimetype == files[i].mimetype
      && r.value[i].mimetype in AllowedMimeTypes() && r.value[i].size == files[i].size && r.value[i].size <= MaxFileSize
      && r.value[i].filename == StoredFilename(AttachmentsField, suffixes[i])
  {
    AcceptFrom(files, suffixes, 0)
  }

  /** A sixth file is refused however well-formed the first five are. */
  lemma SixFilesRefused(files: seq<IncomingFile>, suffixes: seq<string>)
    requires |suffixes| == |files| == 6
    ensures AcceptTaskUploads(files, suffixes).Failure?
  {
  }

  /** The size limit is inclusive and sits at 10000 MiB: a single allowed file of
      10485760000 bytes is kept, one byte more is refused as too large. */
  lemma SizeLimitBoundary(mimetype: string, suffix: string)
    requires mimetype in AllowedMimeTypes()
    ensures AcceptTaskUploads([IncomingFile("attachments", mimetype, 10485760000)], [suffix]).Success?
    ensures AcceptTaskUploads([IncomingFile("attachments", mimetype, 10485760001)], [suffix])
         == Failure(FileTooLarge("attachments"))
  {
  }
}
