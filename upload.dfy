/** The image upload routes of backend/routes/upload.js: the MIME-type
    filter, the mapping from an upload error to a response, and the choice
    of URL and public id from the file record the storage returns. The
    upload itself (multer and the storage) is a parameter: its error, if
    any, and the stored file records. A missing field is the empty string. */
module Upload {
  import opened Common

  // ---------------------------------------------------------------------
  // fileFilter

  /** The alternatives of `/jpeg|jpg|png|gif|webp/`. */
  const AllowedTypes: seq<string> := ["jpeg", "jpg", "png", "gif", "webp"]

  /** `allowedTypes.test(mimetype)`: the pattern is not anchored, so any occurrence counts. */
  predicate FileFilter(mimetype: string)
  {
    Contains(mimetype, "jpeg") || Contains(mimetype, "jpg") || Contains(mimetype, "png") ||
    Contains(mimetype, "gif") || Contains(mimetype, "webp")
  }

  const FilterError: string := "Only image files are allowed! (jpg, jpeg, png, gif, webp)"

  /** The filter's verdict: the file is accepted, or refused with the filter's error. */
  function FilterVerdict(mimetype: string): (r: Option<string>)
    ensures r.None? <==> FileFilter(mimetype)
    ensures r.Some? ==> r.value == FilterError
  {
    if FileFilter(mimetype) then None else Some(FilterError)
  }

  /** A type is accepted exactly when one of the five names occurs in it somewhere. */
  lemma FilterIsSubstringSearch(mimetype: string)
    ensures FileFilter(mimetype) <==>
              exists k, i: nat :: 0 <= k < |AllowedTypes| && OccursAt(mimetype, AllowedTypes[k], i)
  {
    forall k | 0 <= k < |AllowedTypes| {
      ContainsIff(mimetype, AllowedTypes[k]);
    }
    if FileFilter(mimetype) {
      if Contains(mimetype, "jpeg") {
        assert AllowedTypes[0] == "jpeg";
      } else if Contains(mimetype, "jpg") {
        assert AllowedTypes[1] == "jpg";
      } else if Contains(mimetype, "png") {
        assert AllowedTypes[2] == "png";
      } else if Contains(mimetype, "gif") {
        assert AllowedTypes[3] == "gif";
      } else {
        assert AllowedTypes[4] == "webp";
      }
    }
  }

  /** The image types pass; a type without any of the names is refused; and because the test
      is a substring search, a non-image type that mentions one of the names passes too. */
  lemma FilterExamples()
    ensures FileFilter("image/jpeg") && FileFilter("image/png") && FileFilter("image/webp")
    ensures !FileFilter("text/html")
    ensures FileFilter("text/x-jpg-notes")
  {
    ContainsAt("image/jpeg", "jpeg", 6);
    ContainsAt("image/png", "png", 6);
    ContainsAt("image/webp", "webp", 6);
    ContainsAt("text/x-jpg-notes", "jpg", 7);
    var h := "text/html";
    assert forall k :: 0 <= k < |h| ==> h[k] != 'j' && h[k] != 'p' && h[k] != 'g' && h[k] != 'w';
    NotContainsChar(h, "jpeg", 'j');
    NotContainsChar(h, "jpg", 'j');
    NotContainsChar(h, "png", 'p');
    NotContainsChar(h, "gif", 'g');
    NotContainsChar(h, "webp", 'w');
  }

  // ---------------------------------------------------------------------
  // Responses

  /** An error passed to the route's callback: multer's code (or "") and its message. */
  datatype UploadError = UploadError(code: string, message: string)

  /** The fields of a stored file record that the routes read. */
  datatype StoredFile = StoredFile(path: string, url: string, secureUrl: string, filename: string, publicId: string)

  /** A JSON response with every field either route sends; a field a response leaves out
      is "", [] or None. `images` holds the (url, publicId) pairs of the multiple route and
      `file` the record the single route echoes when it finds no URL. */
  datatype Reply = Reply(
    status: int,
    message: string,
    error: string,
    hint: string,
    imageUrl: string,
    publicId: string,
    imageUrls: seq<string>,
    images: seq<(string, string)>,
    file: Option<StoredFile>)

  function ErrorReply(status: int, message: string): Reply
  {
    Reply(status, message, "", "", "", "", [], [], None)
  }

  /** `file.path || file.url || file.secure_url`. */
  function FileUrl(f: StoredFile): string
  {
    if f.path != "" then f.path else if f.url != "" then f.url else f.secureUrl
  }

  /** `file.filename || file.public_id`. */
  function FilePublicId(f: StoredFile): string
  {
    if f.filename != "" then f.filename else f.publicId
  }

  /** The URL is the first of path, url and secure_url that is present, and is missing only
      when all three are. */
  lemma FileUrlFallback(f: StoredFile)
    ensures FileUrl(f) == "" <==> f.path == "" && f.url == "" && f.secureUrl == ""
    ensures FileUrl(f) != "" ==> FileUrl(f) in [f.path, f.url, f.secureUrl]
    ensures f.path != "" ==> FileUrl(f) == f.path
    ensures f.path == "" && f.url != "" ==> FileUrl(f) == f.url
    ensures FilePublicId(f) == "" <==> f.filename == "" && f.publicId == ""
  {
  }

  const InvalidSignatureMessage: string :=
    "Cloudinary authentication failed. Please check your CLOUDINARY_API_SECRET in .env file."

  const InvalidSignatureError: string := "Invalid Cloudinary API secret"

  const InvalidSignatureHint: string :=
    "Make sure CLOUDINARY_API_SECRET is set to your actual API secret (not the placeholder)"

  /** POST /single: the error mapping, then the file checks. */
  function SingleUpload(err: Option<UploadError>, file: Option<StoredFile>): Reply
  {
    match err
    case Some(e) =>
      if e.code == "LIMIT_FILE_SIZE" then ErrorReply(400, "File too large. Maximum size is 10MB.")
      else if e.code == "LIMIT_FILE_COUNT" then ErrorReply(400, "Too many files.")
      else if e.code == "LIMIT_UNEXPECTED_FILE" then ErrorReply(400, "Unexpected file field.")
      else if e.message != "" && Contains(e.message, "Invalid Signature") then
        ErrorReply(401, InvalidSignatureMessage).(error := InvalidSignatureError, hint := InvalidSignatureHint)
      else ErrorReply(400, if e.message != "" then e.message else "File upload failed").(error := e.message)
    case None =>
      match file
      case None => ErrorReply(400, "No file uploaded")
      case Some(f) =>
        if FileUrl(f) == "" then ErrorReply(500, "Upload succeeded but URL not found").(file := Some(f))
        else ErrorReply(200, "File uploaded successfully").(imageUrl := FileUrl(f), publicId := FilePublicId(f))
  }

  /** The upload limits answer 400 with their own messages; a signature failure answers 401;
      every other error answers 400 with its message. */
  lemma SingleErrorRules(e: UploadError, file: Option<StoredFile>)
    ensures var r := SingleUpload(Some(e), file);
            var limit := e.code in {"LIMIT_FILE_SIZE", "LIMIT_FILE_COUNT", "LIMIT_UNEXPECTED_FILE"};
            && (r.status == 401 <==> !limit && Contains(e.message, "Invalid Signature"))
            && (r.status == 400 <==> !(r.status == 401))
            && (e.code == "LIMIT_FILE_SIZE" ==> r.message == "File too large. Maximum size is 10MB.")
            && (!limit && !Contains(e.message, "Invalid Signature") ==>
                  r.message == (if e.message != "" then e.message else "File upload failed") &&
                  r.error == e.message && r.hint == "")
            && (r.status == 401 ==> r.error == InvalidSignatureError && r.hint == InvalidSignatureHint)
            && (limit ==> r.error == "" && r.hint == "")
            && r.imageUrl == "" && r.publicId == "" && r.file == None
  {
  }

  /** Without an error: no file is 400, a file without any URL is 500, and otherwise the
      response is 200 with the file's URL and public id. */
  lemma SingleFileRules(file: Option<StoredFile>)
    ensures file.None? ==> SingleUpload(None, file).status == 400
    ensures file.Some? ==>
              (SingleUpload(None, file).status == 500 <==>
                 file.value.path == "" && file.value.url == "" && file.value.secureUrl == "")
    ensures SingleUpload(None, file).status == 500 ==> SingleUpload(None, file).file == file
    ensures SingleUpload(None, file).status == 200 ==>
              SingleUpload(None, file).publicId == FilePublicId(file.value) &&
              SingleUpload(None, file).message == "File uploaded successfully"
    ensures SingleUpload(None, file).status == 200 ==>
              file.Some? && SingleUpload(None, file).imageUrl != "" &&
              SingleUpload(None, file).imageUrl in [file.value.path, file.value.url, file.value.secureUrl]
  {
    if file.Some? {
      FileUrlFallback(file.value);
    }
  }

  /** `files.map(file => url)`. */
  function ImageUrls(files: seq<StoredFile>): seq<string>
  {
    seq(|files|, i requires 0 <= i < |files| => FileUrl(files[i]))
  }

  /** `files.map(file => ({url, publicId}))`. */
  function ImageRecords(files: seq<StoredFile>): seq<(string, string)>
  {
    seq(|files|, i requires 0 <= i < |files| => (FileUrl(files[i]), FilePublicId(files[i])))
  }

  /** POST /multiple. */
  function MultipleUpload(err: Option<UploadError>, files: seq<StoredFile>): Reply
  {
    match err
    case Some(e) =>
      if e.code == "LIMIT_FILE_SIZE" then ErrorReply(400, "File too large. Maximum size is 10MB per file.")
      else if e.code == "LIMIT_FILE_COUNT" then ErrorReply(400, "Too many files. Maximum is 10 files.")
      else if e.code == "LIMIT_UNEXPECTED_FILE" then ErrorReply(400, "Unexpected file field.")
      else ErrorReply(400, if e.message != "" then e.message else "File upload failed")
    case None =>
      if |files| == 0 then ErrorReply(400, "No files uploaded")
      else ErrorReply(200, "Files uploaded successfully").(imageUrls := ImageUrls(files), images := ImageRecords(files))
  }

  /** Every error of the multiple route answers 400, a signature failure included; no files
      answer 400; otherwise there is one URL per file, in the files' order, each chosen as
      the single route chooses it. */
  lemma MultipleRules(err: Option<UploadError>, files: seq<StoredFile>)
    ensures err.Some? ==> MultipleUpload(err, files).status == 400
    ensures err.Some? || files == [] ==>
              MultipleUpload(err, files).imageUrls == [] && MultipleUpload(err, files).images == []
    ensures err.None? && files == [] ==> MultipleUpload(err, files).status == 400
    ensures err.None? && files != [] ==>
              var r := MultipleUpload(err, files);
              && r.status == 200
              && |r.imageUrls| == |files| && |r.images| == |files|
              && (forall i :: 0 <= i < |files| && FileUrl(files[i]) != "" ==>
                    r.imageUrls[i] == SingleUpload(None, Some(files[i])).imageUrl &&
                    r.images[i] == (r.imageUrls[i], SingleUpload(None, Some(files[i])).publicId))
              && (forall i :: 0 <= i < |files| ==>
                    r.images[i] == (FileUrl(files[i]), FilePublicId(files[i])) && r.images[i].0 == r.imageUrls[i])
  {
  }

  /** The URL list of two batches is the two lists one after the other. */
  lemma ImageUrlsAppend(a: seq<StoredFile>, b: seq<StoredFile>)
    ensures ImageUrls(a + b) == ImageUrls(a) + ImageUrls(b)
  {
    var l, r := ImageUrls(a + b), ImageUrls(a) + ImageUrls(b);
    assert |l| == |r|;
    forall i | 0 <= i < |l|
      ensures l[i] == r[i]
    {
      if i < |a| {
        assert (a + b)[i] == a[i];
      } else {
        assert (a + b)[i] == b[i - |a|];
      }
    }
  }
}
