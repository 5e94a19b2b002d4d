/** File upload validation (lib/storage.ts): the extension taken from a file
    URI, the allow-lists and byte limits, the storage path, the content type,
    and the two device pickers.

    The backend and the device are inputs: `read` is the byte length the
    fetched file turned out to have (`None` when fetching or reading it
    failed), `storageOk` whether the storage upload succeeded, and `now` the
    value of `Date.now()`. Each upload returns the calls it made, in order,
    with its outcome. */
module Storage {
  import opened Results
  import opened Text

  const MaxProfilePhotoBytes: nat := 500 * 1024
  const MaxCvBytes: nat := 2 * 1024 * 1024
  const ImageAllowedExt: seq<string> := ["jpg", "jpeg", "png", "webp"]

  const PdfMime: string := "application/pdf"
  const MswordMime: string := "application/msword"
  /** "application/vnd.openxmlformats-officedocument.wordprocessingml.document",
      written in pieces that end before each `d`, the first letter of the
      extensions searched for in it. */
  const WordprocessingMime: string :=
    "application/vn" + "d.openxmlformats-office" + "document.wor" + "dprocessingml." + "document"
  const CvMimeTypes: seq<string> := [PdfMime, MswordMime, WordprocessingMime]
  const CvAllowedExt: seq<string> := ["pdf", "doc", "docx"]

  // ---------------------------------------------------------------------------
  // Extension and path

  /** `uri.split('.').pop()?.toLowerCase() || fallback`: the lower-cased text
      after the last dot, or the whole URI when it has no dot; the fallback
      only when that text is empty. */
  function FileExt(uri: string, fallback: string): string {
    var e := ToLower(LastSegment(uri, '.'));
    if e == "" then fallback else e
  }

  lemma LowerKeepsDots(s: string)
    requires '.' !in s
    ensures '.' !in ToLower(s)
  {
    forall i | 0 <= i < |s| ensures ToLower(s)[i] != '.' {
      assert s[i] != '.';
    }
  }

  lemma IndexIsMember(s: string, k: int)
    ensures 0 <= k < |s| ==> s[k] in s
  {
  }

  /** The extension is the fallback exactly when the URI ends in a dot or is
      empty, and otherwise is the lower-cased last segment, which has no dot;
      a URI without any dot is its own extension. */
  lemma FileExtSpec(uri: string, fallback: string)
    ensures LastSegment(uri, '.') == "" ==> FileExt(uri, fallback) == fallback
    ensures LastSegment(uri, '.') != "" ==>
              FileExt(uri, fallback) == ToLower(LastSegment(uri, '.')) && '.' !in FileExt(uri, fallback)
    ensures '.' !in uri ==> LastSegment(uri, '.') == uri
  {
    LowerKeepsDots(LastSegment(uri, '.'));
    var r := LastSegment(uri, '.');
    if '.' !in uri {
      IndexIsMember(uri, |uri| - |r| - 1);
      assert uri[|uri| - |r|..] == uri;
    }
  }

  /** An extension as `FileExt` produces it: non-empty, without a dot, lower case. */
  predicate PlainExt(ext: string) {
    ext != "" && '.' !in ext && ToLower(ext) == ext
  }

  lemma FallbacksPlain()
    ensures PlainExt("jpg") && PlainExt("pdf")
  {
    assert ToLower("jpg") == "jpg";
    assert ToLower("pdf") == "pdf";
  }

  /** With a plain fallback, every extension `FileExt` returns is plain. */
  lemma FileExtPlain(uri: string, fallback: string)
    requires PlainExt(fallback)
    ensures PlainExt(FileExt(uri, fallback))
  {
    FileExtSpec(uri, fallback);
    ToLowerIdempotent(LastSegment(uri, '.'));
  }

  /** `${userId}/${Date.now()}.${fileExt}`. */
  function StoragePath(userId: string, now: nat, ext: string): string {
    userId + "/" + Decimal(now) + "." + ext
  }

  /** The extension read back from the storage path is the extension the path
      was built with. */
  lemma PathKeepsExtension(userId: string, now: nat, ext: string, fallback: string)
    requires ext != "" && '.' !in ext && ToLower(ext) == ext
    ensures FileExt(StoragePath(userId, now, ext), fallback) == ext
    ensures StoragePath(userId, now, ext)[..|userId| + 1] == userId + "/"
  {
    LastSegmentOfSuffix(userId + "/" + Decimal(now), ext, '.');
    assert StoragePath(userId, now, ext) == userId + "/" + Decimal(now) + ['.'] + ext;
  }

  // ---------------------------------------------------------------------------
  // Uploads

  datatype UploadError = ExtensionNotAllowed | FileTooLarge | ReadFailed | StorageRejected

  /** The backend calls an upload makes. */
  datatype StorageCall =
    | FetchFile(uri: string)
    | UploadFile(bucket: string, path: string, contentType: string, upsert: bool)

  /** Where the file was stored; the returned public URL is the bucket's
      public URL for this path. */
  datatype StoredFile = StoredFile(bucket: string, path: string)

  datatype Upload = Upload(calls: seq<StorageCall>, result: Result<StoredFile, UploadError>)

  /** `uploadProfilePhoto(userId, fileUri)`. */
  function UploadProfilePhoto(userId: string, uri: string, now: nat, read: Option<nat>, storageOk: bool): Upload {
    var ext := FileExt(uri, "jpg");
    if ext !in ImageAllowedExt then Upload([], Err(ExtensionNotAllowed))
    else
      var path := StoragePath(userId, now, ext);
      match read
      case None => Upload([FetchFile(uri)], Err(ReadFailed))
      case Some(bytes) =>
        if bytes > MaxProfilePhotoBytes then Upload([FetchFile(uri)], Err(FileTooLarge))
        else
          var call := UploadFile("profile-photos", path, "image/" + ext, true);
          if storageOk then Upload([FetchFile(uri), call], Ok(StoredFile("profile-photos", path)))
          else Upload([FetchFile(uri), call], Err(StorageRejected))
  }

  /** A photo upload succeeds exactly when the extension is allowed, the file
      could be read, it has at most 500 KiB and storage accepts it. A rejected
      extension is reported before the file is fetched, and an oversized file
      before anything is uploaded. A successful upload stores
      `userId/now.ext` with content type `image/ext`, overwriting. */
  lemma PhotoUploadSpec(userId: string, uri: string, now: nat, read: Option<nat>, storageOk: bool)
    ensures var u := UploadProfilePhoto(userId, uri, now, read, storageOk);
      var ext := FileExt(uri, "jpg");
      && (u.result.Ok? <==> ext in ImageAllowedExt && read.Some? && read.value <= MaxProfilePhotoBytes && storageOk)
      && (ext !in ImageAllowedExt ==> u.calls == [] && u.result == Err(ExtensionNotAllowed))
      && (ext in ImageAllowedExt && read.Some? && read.value > MaxProfilePhotoBytes ==>
            u.calls == [FetchFile(uri)] && u.result == Err(FileTooLarge))
      && (u.result.Ok? ==>
            u.calls == [FetchFile(uri), UploadFile("profile-photos", StoragePath(userId, now, ext), "image/" + ext, true)]
            && u.result.value == StoredFile("profile-photos", StoragePath(userId, now, ext))
            && FileExt(u.result.value.path, "jpg") == ext)
  {
    if UploadProfilePhoto(userId, uri, now, read, storageOk).result.Ok? {
      PhotoUploadStored(userId, uri, now, read, storageOk);
    }
  }

  lemma PhotoUploadStored(userId: string, uri: string, now: nat, read: Option<nat>, storageOk: bool)
    requires UploadProfilePhoto(userId, uri, now, read, storageOk).result.Ok?
    ensures var u := UploadProfilePhoto(userId, uri, now, read, storageOk);
      var ext := FileExt(uri, "jpg");
      && u.calls == [FetchFile(uri), UploadFile("profile-photos", StoragePath(userId, now, ext), "image/" + ext, true)]
      && u.result.value == StoredFile("profile-photos", StoragePath(userId, now, ext))
      && FileExt(u.result.value.path, "jpg") == ext
  {
    FallbacksPlain();
    FileExtPlain(uri, "jpg");
    PathKeepsExtension(userId, now, FileExt(uri, "jpg"), "jpg");
  }

  /** The content type of a CV as the code picks it:
      `CV_MIME_TYPES.find(type => type.includes(fileExt)) || 'application/pdf'`. */
  function CvContentTypeAsWritten(ext: string): string {
    FirstContaining(CvMimeTypes, ext).GetOr(PdfMime)
  }

  function FirstContaining(types: seq<string>, ext: string): Option<string> {
    if types == [] then None
    else if Contains(types[0], ext) then Some(types[0])
    else FirstContaining(types[1..], ext)
  }

  /** The content type of a CV by its extension: the MIME type at the same
      position as the extension in the allow-list. */
  function CvContentType(ext: string): string {
    if ext == CvAllowedExt[0] then CvMimeTypes[0]
    else if ext == CvAllowedExt[1] then CvMimeTypes[1]
    else if ext == CvAllowedExt[2] then CvMimeTypes[2]
    else PdfMime
  }

  /** Each allowed extension gets its own MIME type, and different extensions
      get different types. */
  lemma CvContentTypeMatchesExtension()
    ensures forall i :: 0 <= i < |CvAllowedExt| ==> CvContentType(CvAllowedExt[i]) == CvMimeTypes[i]
    ensures forall i, j :: 0 <= i < j < |CvAllowedExt| ==> CvContentType(CvAllowedExt[i]) != CvContentType(CvAllowedExt[j])
  {
    assert PdfMime[..12] == MswordMime[..12];
    assert PdfMime[12] != MswordMime[12];
    assert |WordprocessingMime| != |PdfMime| && |WordprocessingMime| != |MswordMime|;
  }

  /** The MIME type chosen by substring search is wrong for both Word formats:
      "doc" is a substring of "officedocument", so a .doc file is labelled
      with the .docx type, and no type contains "docx", so a .docx file falls
      back to PDF. Only "pdf" gets its own type. */
  lemma CvContentTypeAsWrittenMislabels(pdf: string, doc: string, docx: string)
    requires pdf == "pdf" && doc == "doc" && docx == "docx"
    ensures CvContentTypeAsWritten(pdf) == CvContentType(pdf) == PdfMime
    ensures CvContentTypeAsWritten(doc) == WordprocessingMime != CvContentType(doc)
    ensures CvContentTypeAsWritten(docx) == PdfMime != CvContentType(docx)
  {
    AsWrittenPdf(pdf);
    AsWrittenDoc(doc);
    AsWrittenDocx(docx);
    CvContentTypeMatchesExtension();
  }

  /** The search over a list of three types. */
  lemma FirstOfThree(types: seq<string>, ext: string)
    requires |types| == 3
    ensures FirstContaining(types, ext)
         == if Contains(types[0], ext) then Some(types[0])
            else if Contains(types[1], ext) then Some(types[1])
            else if Contains(types[2], ext) then Some(types[2])
            else None
  {
    var t1 := types[1..];
    var t2 := t1[1..];
    assert t1[0] == types[1] && t2[0] == types[2] && t2[1..] == [];
    assert FirstContaining(t2, ext) == if Contains(types[2], ext) then Some(types[2]) else None;
    assert FirstContaining(t1, ext) == if Contains(types[1], ext) then Some(types[1]) else FirstContaining(t2, ext);
  }

  lemma AsWrittenPdf(ext: string)
    requires ext == "pdf"
    ensures CvContentTypeAsWritten(ext) == PdfMime
  {
    FirstOfThree(CvMimeTypes, ext);
    PdfContainsPdf(CvMimeTypes[0]);
  }

  lemma AsWrittenDoc(ext: string)
    requires ext == "doc"
    ensures CvContentTypeAsWritten(ext) == WordprocessingMime
  {
    FirstOfThree(CvMimeTypes, ext);
    PdfLacksDoc(CvMimeTypes[0]);
    MswordLacksDoc(CvMimeTypes[1]);
    WordprocessingContainsDoc(CvMimeTypes[2]);
  }

  lemma AsWrittenDocx(ext: string)
    requires ext == "docx"
    ensures CvContentTypeAsWritten(ext) == PdfMime
  {
    FirstOfThree(CvMimeTypes, ext);
    ShortLacks(CvMimeTypes[0], ext);
    MswordLacksDocx(CvMimeTypes[1]);
    WordprocessingLacksDocx(CvMimeTypes[2]);
  }

  // Facts about the three MIME type strings. Each takes the string as a
  // parameter so that the verifier reasons about it step by step rather than
  // unfolding `Contains` on a literal.

  lemma PdfContainsPdf(t: string)
    requires t == PdfMime
    ensures Contains(t, "pdf")
  {
    assert t == "application/" + "pdf";
    assert "pdf" <= "pdf";
    ContainsAfter("application/", "pdf", "pdf");
  }

  lemma PdfLacksDoc(t: string)
    requires t == PdfMime
    ensures !Contains(t, "doc")
  {
    assert t == "application/p" + "df";
    ContainsSkip("application/p", "df", "doc");
    ContainsShort("df", "doc");
  }

  lemma MswordLacksDoc(t: string)
    requires t == MswordMime
    ensures !Contains(t, "doc")
  {
    assert t == "application/mswor" + "d";
    ContainsSkip("application/mswor", "d", "doc");
    ContainsShort("d", "doc");
  }

  lemma MswordLacksDocx(t: string)
    requires t == MswordMime
    ensures !Contains(t, "docx")
  {
    assert t == "application/mswor" + "d";
    ContainsSkip("application/mswor", "d", "docx");
    ContainsShort("d", "docx");
  }

  lemma ShortLacks(t: string, needle: string)
    requires t == PdfMime && needle == "docx"
    ensures !Contains(t, needle)
  {
    assert t == "application/p" + "df";
    ContainsSkip("application/p", "df", needle);
    ContainsShort("df", needle);
  }

  lemma WordprocessingSplit(t: string)
    requires t == WordprocessingMime
    ensures t == "application/vn" + ("d" + (".openxmlformats-office"
                 + ("d" + ("ocument.wor" + ("d" + ("processingml." + ("d" + "ocument")))))))
  {
    var x4 := "d" + ("processingml." + ("d" + "ocument"));
    var x3 := "d" + ("ocument.wor" + x4);
    SplitAtD1();
    SplitAtD2(x4);
    SplitAtD3(x3);
    Regroup("application/vn", "d.openxmlformats-office", "document.wor", "dprocessingml.", "document");
  }

  lemma SplitAtD1()
    ensures "dprocessingml." + "document" == "d" + ("processingml." + ("d" + "ocument"))
  {
  }

  lemma SplitAtD2(rest: string)
    ensures "document.wor" + rest == "d" + ("ocument.wor" + rest)
  {
  }

  lemma SplitAtD3(rest: string)
    ensures "d.openxmlformats-office" + rest == "d" + (".openxmlformats-office" + rest)
  {
  }

  lemma Regroup(a: string, b: string, c: string, d: string, e: string)
    ensures a + b + c + d + e == a + (b + (c + (d + e)))
  {
  }

  lemma WordprocessingContainsDoc(t: string)
    requires t == WordprocessingMime
    ensures Contains(t, "doc")
  {
    WordprocessingSplit(t);
    var tail := "d" + ("ocument.wor" + ("d" + ("processingml." + ("d" + "ocument"))));
    assert "doc" <= tail;
    var front := "application/vn" + ("d" + ".openxmlformats-office");
    ContainsAfter(front, tail, "doc");
    assert front + tail == t;
  }

  /** Skips one `d` that does not start the needle and the `d`-free text after it. */
  lemma SkipAtD(p: string, rest: string, needle: string, k: nat)
    requires needle != [] && needle[0] !in p && k < |needle| && k <= |p + rest|
    requires (['d'] + (p + rest))[k] != needle[k]
    ensures Contains(['d'] + (p + rest), needle) == Contains(rest, needle)
  {
    ContainsStep('d', p + rest, needle, k);
    ContainsSkip(p, rest, needle);
  }

  lemma DocumentLacksDocx()
    ensures !Contains("d" + "ocument", "docx")
  {
    assert "ocument" + [] == "ocument";
    SkipAtD("ocument", [], "docx", 3);
    ContainsShort([], "docx");
  }

  lemma ProcessingmlLacksDocx(rest: string)
    requires !Contains(rest, "docx")
    ensures !Contains("d" + ("processingml." + rest), "docx")
  {
    SkipAtD("processingml.", rest, "docx", 1);
  }

  lemma OcumentWorLacksDocx(rest: string)
    requires !Contains(rest, "docx")
    ensures !Contains("d" + ("ocument.wor" + rest), "docx")
  {
    SkipAtD("ocument.wor", rest, "docx", 3);
  }

  lemma OpenxmlLacksDocx(rest: string)
    requires !Contains(rest, "docx")
    ensures !Contains("d" + (".openxmlformats-office" + rest), "docx")
  {
    SkipAtD(".openxmlformats-office", rest, "docx", 1);
  }

  lemma WordprocessingLacksDocx(t: string)
    requires t == WordprocessingMime
    ensures !Contains(t, "docx")
  {
    WordprocessingSplit(t);
    var x5 := "d" + "ocument";
    var x4 := "d" + ("processingml." + x5);
    var x3 := "d" + ("ocument.wor" + x4);
    var x2 := "d" + (".openxmlformats-office" + x3);
    DocumentLacksDocx();
    ProcessingmlLacksDocx(x5);
    OcumentWorLacksDocx(x4);
    OpenxmlLacksDocx(x3);
    ContainsSkip("application/vn", x2, "docx");
  }

  /** The steps of `uploadCV(userId, fileUri)`, with the content type given
      by `contentType` from the extension. */
  function UploadCvTyped(userId: string, uri: string, now: nat, read: Option<nat>, storageOk: bool,
                         contentType: string -> string): Upload
  {
    var ext := FileExt(uri, "pdf");
    if ext !in CvAllowedExt then Upload([], Err(ExtensionNotAllowed))
    else
      var path := StoragePath(userId, now, ext);
      match read
      case None => Upload([FetchFile(uri)], Err(ReadFailed))
      case Some(bytes) =>
        if bytes > MaxCvBytes then Upload([FetchFile(uri)], Err(FileTooLarge))
        else
          var call := UploadFile("cvs", path, contentType(ext), false);
          if storageOk then Upload([FetchFile(uri), call], Ok(StoredFile("cvs", path)))
          else Upload([FetchFile(uri), call], Err(StorageRejected))
  }

  /** `uploadCV(userId, fileUri)` as written: the content type by substring search. */
  function UploadCv(userId: string, uri: string, now: nat, read: Option<nat>, storageOk: bool): Upload {
    UploadCvTyped(userId, uri, now, read, storageOk, CvContentTypeAsWritten)
  }

  /** `uploadCV` with the content type looked up by extension. */
  function UploadCvIntended(userId: string, uri: string, now: nat, read: Option<nat>, storageOk: bool): Upload {
    UploadCvTyped(userId, uri, now, read, storageOk, CvContentType)
  }

  /** A CV upload succeeds exactly when the extension is pdf, doc or docx, the
      file could be read, it has at most 2 MiB and storage accepts it; checks
      run before fetching and before uploading, as for photos. The upload
      never overwrites, and its content type is the first of the three MIME
      types containing the extension, or PDF. */
  lemma CvUploadSpec(userId: string, uri: string, now: nat, read: Option<nat>, storageOk: bool)
    ensures var u := UploadCv(userId, uri, now, read, storageOk);
      var ext := FileExt(uri, "pdf");
      && (u.result.Ok? <==> ext in CvAllowedExt && read.Some? && read.value <= MaxCvBytes && storageOk)
      && (ext !in CvAllowedExt ==> u.calls == [] && u.result == Err(ExtensionNotAllowed))
      && (ext in CvAllowedExt && read.Some? && read.value > MaxCvBytes ==>
            u.calls == [FetchFile(uri)] && u.result == Err(FileTooLarge))
      && (u.result.Ok? ==>
            u.calls == [FetchFile(uri), UploadFile("cvs", StoragePath(userId, now, ext), CvContentTypeAsWritten(ext), false)]
            && u.result.value == StoredFile("cvs", StoragePath(userId, now, ext))
            && FileExt(u.result.value.path, "pdf") == ext)
  {
    if UploadCv(userId, uri, now, read, storageOk).result.Ok? {
      CvUploadStored(userId, uri, now, read, storageOk);
    }
  }

  lemma CvUploadStored(userId: string, uri: string, now: nat, read: Option<nat>, storageOk: bool)
    requires UploadCv(userId, uri, now, read, storageOk).result.Ok?
    ensures var u := UploadCv(userId, uri, now, read, storageOk);
      var ext := FileExt(uri, "pdf");
      && u.calls == [FetchFile(uri), UploadFile("cvs", StoragePath(userId, now, ext), CvContentTypeAsWritten(ext), false)]
      && u.result.value == StoredFile("cvs", StoragePath(userId, now, ext))
      && FileExt(u.result.value.path, "pdf") == ext
  {
    FallbacksPlain();
    FileExtPlain(uri, "pdf");
    PathKeepsExtension(userId, now, FileExt(uri, "pdf"), "pdf");
  }

  /** The corrected upload makes the same calls with the same outcome, except
      that the uploaded file is labelled with its extension's own type; the
      two differ for exactly the Word formats. */
  lemma UploadCvIntendedSpec(userId: string, uri: string, now: nat, read: Option<nat>, storageOk: bool)
    ensures var u, w := UploadCv(userId, uri, now, read, storageOk), UploadCvIntended(userId, uri, now, read, storageOk);
      var ext := FileExt(uri, "pdf");
      && w.result == u.result && |w.calls| == |u.calls| && (|u.calls| > 0 ==> w.calls[0] == u.calls[0])
      && (|u.calls| == 2 ==> w.calls[1] == u.calls[1].(contentType := CvContentType(ext)))
      && (|u.calls| == 2 ==> (w.calls[1] == u.calls[1] <==> ext == "pdf"))
  {
    var ext := FileExt(uri, "pdf");
    UploadCvRelabel(userId, uri, now, read, storageOk, CvContentTypeAsWritten, CvContentType);
    if ext in CvAllowedExt {
      CvLabelsAgreeIffPdf(ext);
    }
  }

  /** Among the allowed extensions, the two lookups agree on pdf only. */
  lemma CvLabelsAgreeIffPdf(ext: string)
    requires ext in CvAllowedExt
    ensures CvContentType(ext) == CvContentTypeAsWritten(ext) <==> ext == "pdf"
  {
    assert ext == CvAllowedExt[0] || ext == CvAllowedExt[1] || ext == CvAllowedExt[2];
    CvContentTypeAsWrittenMislabels("pdf", "doc", "docx");
  }

  /** Two content-type lookups give uploads that differ only in the label of
      the uploaded file. */
  lemma UploadCvRelabel(userId: string, uri: string, now: nat, read: Option<nat>, storageOk: bool,
                        f: string -> string, g: string -> string)
    ensures var u, w := UploadCvTyped(userId, uri, now, read, storageOk, f), UploadCvTyped(userId, uri, now, read, storageOk, g);
      var ext := FileExt(uri, "pdf");
      && w.result == u.result && |w.calls| == |u.calls| && (|u.calls| > 0 ==> w.calls[0] == u.calls[0])
      && (|u.calls| == 2 ==> ext in CvAllowedExt && w.calls[1] == u.calls[1].(contentType := g(ext))
                             && (w.calls[1] == u.calls[1] <==> g(ext) == f(ext)))
  {
  }

  // ---------------------------------------------------------------------------
  // Pickers

  /** What a picker returned: cancelled, or a list of assets. */
  datatype Picked<A> = Canceled | Assets(assets: seq<A>)

  datatype ImageAsset = ImageAsset(uri: string, fileSize: Option<int>)
  datatype DocumentAsset = DocumentAsset(uri: string, name: Option<string>, size: Option<int>)

  datatype PickError = PermissionDenied | PickedTooLarge | PickedWrongType

  /** `pickImage()`: `permission` is the status of the media-library request
      and `picked` what the image library returned once opened. */
  function PickImage(permission: string, picked: Picked<ImageAsset>): Result<Option<string>, PickError> {
    if permission != "granted" then Err(PermissionDenied)
    else if picked.Assets? && |picked.assets| > 0 then
      var asset := picked.assets[0];
      if asset.fileSize.Some? && asset.fileSize.value > MaxProfilePhotoBytes then Err(PickedTooLarge)
      else Ok(Some(asset.uri))
    else Ok(None)
  }

  /** Without permission nothing is picked; a cancel yields no URI; otherwise
      the first asset's URI is returned unless it reports more than 500 KiB
      (an unreported size is not checked). */
  lemma PickImageSpec(permission: string, picked: Picked<ImageAsset>)
    ensures permission != "granted" ==> PickImage(permission, picked) == Err(PermissionDenied)
    ensures picked == Canceled && permission == "granted" ==> PickImage(permission, picked) == Ok(None)
    ensures PickImage(permission, picked).Ok? && PickImage(permission, picked).value.Some? <==>
              permission == "granted" && picked.Assets? && |picked.assets| > 0
              && !(picked.assets[0].fileSize.Some? && picked.assets[0].fileSize.value > MaxProfilePhotoBytes)
    ensures PickImage(permission, picked) == Err(PickedTooLarge) ==>
              picked.Assets? && |picked.assets| > 0 && picked.assets[0].fileSize.Some?
    ensures permission == "granted" && picked.Assets? && |picked.assets| > 0 ==>
              var a := picked.assets[0];
              && (a.fileSize.Some? && a.fileSize.value > MaxProfilePhotoBytes ==> PickImage(permission, picked) == Err(PickedTooLarge))
              && (!(a.fileSize.Some? && a.fileSize.value > MaxProfilePhotoBytes) ==> PickImage(permission, picked) == Ok(Some(a.uri)))
    ensures permission == "granted" && picked.Assets? && picked.assets == [] ==> PickImage(permission, picked) == Ok(None)
  {
  }

  /** The extension `pickDocument` checks: undefined without a name. */
  function DocumentExt(name: Option<string>): Option<string> {
    match name
    case None => None
    case Some(n) => Some(ToLower(LastSegment(n, '.')))
  }

  /** `pickDocument()`. */
  function PickDocument(picked: Picked<DocumentAsset>): Result<Option<string>, PickError> {
    if picked.Assets? && |picked.assets| > 0 then
      var asset := picked.assets[0];
      var ext := DocumentExt(asset.name);
      if ext.Some? && ext.value != "" && ext.value !in CvAllowedExt then Err(PickedWrongType)
      else if asset.size.Some? && asset.size.value > MaxCvBytes then Err(PickedTooLarge)
      else Ok(Some(asset.uri))
    else Ok(None)
  }

  /** A cancel yields no URI. The extension is checked only when the asset has
      a name whose last segment is non-empty; a name without any dot counts as
      its own extension and is refused unless it is "pdf", "doc" or "docx".
      The size is checked only when reported. */
  lemma PickDocumentSpec(picked: Picked<DocumentAsset>)
    ensures picked == Canceled ==> PickDocument(picked) == Ok(None)
    ensures picked.Assets? && picked.assets == [] ==> PickDocument(picked) == Ok(None)
    ensures picked.Assets? && |picked.assets| > 0 ==>
      var a := picked.assets[0];
      var wrongType := a.name.Some? && LastSegment(a.name.value, '.') != "" && ToLower(LastSegment(a.name.value, '.')) !in CvAllowedExt;
      var tooLarge := a.size.Some? && a.size.value > MaxCvBytes;
      && (PickDocument(picked) == Err(PickedWrongType) <==> wrongType)
      && (!wrongType && tooLarge ==> PickDocument(picked) == Err(PickedTooLarge))
      && (!wrongType && !tooLarge ==> PickDocument(picked) == Ok(Some(a.uri)))
      && (a.name == None && a.size == None ==> PickDocument(picked) == Ok(Some(a.uri)))
  {
  }

  /** A document named without any dot is refused unless the whole name,
      lower-cased, is an allowed extension. */
  lemma DocumentWithoutDot(uri: string, name: string)
    requires name != "" && '.' !in name && ToLower(name) !in CvAllowedExt
    ensures PickDocument(Assets([DocumentAsset(uri, Some(name), None)])) == Err(PickedWrongType)
  {
    FileExtSpec(name, "");
  }
}
