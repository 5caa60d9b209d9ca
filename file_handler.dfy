/**
 * The shared helpers of the file-handler contract: recognising an image upload
 * by its declared media type, filling in an upload result's image metadata,
 * and normalising a directory name so that it ends with the path separator.
 */
module FileHandler {
  import opened Wrappers
  import opened Text

  /** The message of the IllegalArgumentException that rejects a blank directory. */
  const BlankDirectoryMessage := "Directory full name must not be blank"

  /** The separator on POSIX hosts; the model takes the separator as a parameter. */
  const PosixSeparator := "/"

  const Wildcard := "*"

  /** A parsed media type `mainType/subtype`, lower-cased as the parser leaves it. */
  datatype MimeType = MimeType(mainType: string, subtype: string)

  /** `IMAGE_TYPE`, the media type family "image", any subtype. */
  const ImageType := MimeType("image", Wildcard)

  /** An uploaded file as the helpers see it: its declared content type, if any. */
  datatype MultipartFile = MultipartFile(contentType: Option<MimeType>)

  /**
   * How far reading the image header gets before an IOException or an
   * OutOfMemoryError: not at all (opening the stream, choosing the reader or
   * reading the width throws one), up to the width (reading the height throws
   * one), or to both dimensions.
   */
  datatype ImageRead = ReadFailed | HeightFailed(width: int) | Read(width: int, height: int)

  /** A thumbnail supplier that is present; `path` is what its `get()` returns. */
  datatype Thumbnailer = Thumbnailer(path: Option<string>)

  /** `MimeType.includes` for a pattern whose subtype is exact or the plain wildcard. */
  predicate Includes(pattern: MimeType, other: MimeType) {
    || pattern.mainType == Wildcard
    || (pattern.mainType == other.mainType
        && (pattern.subtype == other.subtype || pattern.subtype == Wildcard))
  }

  /** `isImageType`: the declared content type is present and in the "image" family. */
  function IsImageType(file: MultipartFile): (r: bool)
    ensures file.contentType.None? ==> !r
    ensures r <==> file.contentType.Some? && file.contentType.value.mainType == "image"
  {
    file.contentType.Some? && Includes(ImageType, file.contentType.value)
  }

  /**
   * `normalizeDirectory`: a blank directory name is rejected; otherwise the
   * separator is appended unless the name already ends with it.
   */
  function NormalizeDirectory(dir: string, sep: string): (r: Result<string, string>)
    ensures r.Failure? <==> IsBlank(dir)
    ensures r.Failure? ==> r.error == BlankDirectoryMessage
    ensures r.Success? ==> dir <= r.value && EndsWith(r.value, sep)
    ensures r.Success? && EndsWith(dir, sep) ==> r.value == dir
    ensures r.Success? && !EndsWith(dir, sep) ==> r.value == dir + sep
  {
    if IsBlank(dir) then Failure(BlankDirectoryMessage)
    else if EndsWith(dir, sep) then Success(dir)
    else
      EndsWithAppended(dir, sep);
      Success(dir + sep)
  }

  /** Normalising a normalised directory name changes nothing. */
  lemma NormalizeDirectoryIdempotent(dir: string, sep: string)
    requires NormalizeDirectory(dir, sep).Success?
    ensures NormalizeDirectory(NormalizeDirectory(dir, sep).value, sep) == NormalizeDirectory(dir, sep)
  {
  }

  /**
   * With a one-character separator the result is the shortest string that
   * starts with `dir` and ends with the separator.
   */
  lemma NormalizeDirectoryIsShortest(dir: string, sep: string, t: string)
    requires |sep| == 1 && NormalizeDirectory(dir, sep).Success?
    requires dir <= t && EndsWith(t, sep)
    ensures |NormalizeDirectory(dir, sep).value| <= |t|
  {
  }

  /** The directory examples: "a/b" and "a/b/" both become "a/b/"; "" and "  " are rejected. */
  lemma NormalizeDirectoryExamples()
    ensures NormalizeDirectory("a/b", PosixSeparator) == Success("a/b/")
    ensures NormalizeDirectory("a/b/", PosixSeparator) == Success("a/b/")
    ensures NormalizeDirectory("", PosixSeparator) == Failure(BlankDirectoryMessage)
    ensures NormalizeDirectory(" \t", PosixSeparator) == Failure(BlankDirectoryMessage)
  {
    assert !IsWhitespace("a/b"[0]);
    assert !IsWhitespace("a/b/"[0]);
    assert !EndsWith("a/b", PosixSeparator) by { assert "a/b"[2..] != PosixSeparator; }
    assert "a/b" + PosixSeparator == "a/b/";
    assert EndsWith("a/b/", PosixSeparator);
  }

  /** The fields of an upload result, as one value. */
  datatype UploadRecord = UploadRecord(
    key: string,
    filePath: Option<string>,
    suffix: string,
    width: Option<int>,
    height: Option<int>,
    thumbPath: Option<string>)

  /** An upload result that storage handlers create and the metadata helper updates in place. */
  class UploadResult {
    var key: string
    var filePath: Option<string>
    var suffix: string
    var width: Option<int>
    var height: Option<int>
    var thumbPath: Option<string>

    /** A fresh result with key, file path and suffix set and no image metadata. */
    constructor (key: string, filePath: Option<string>, suffix: string)
      ensures Record() == UploadRecord(key, filePath, suffix, None, None, None)
    {
      this.key := key;
      this.filePath := filePath;
      this.suffix := suffix;
      width := None;
      height := None;
      thumbPath := None;
    }

    function Record(): UploadRecord
      reads this
    {
      UploadRecord(key, filePath, suffix, width, height, thumbPath)
    }
  }

  /** The supplier is consulted only for an image whose dimensions were both read. */
  predicate SupplierInvoked(isImage: bool, read: ImageRead, supplier: Option<Thumbnailer>) {
    isImage && read.Read? && supplier.Some?
  }

  /**
   * The upload result after `handleImageMetadata`, given whether the file is an
   * image, how far reading its header got, and the thumbnail supplier.
   */
  function AfterImageMetadata(before: UploadRecord, isImage: bool, read: ImageRead, supplier: Option<Thumbnailer>)
    : (after: UploadRecord)
    // the identity of the upload is never touched
    ensures after.key == before.key && after.filePath == before.filePath && after.suffix == before.suffix
    // every result exposes a usable thumbnail, or falls back to the file itself
    ensures !IsBlankOrNull(after.thumbPath) || after.thumbPath == before.filePath
    // dimensions are written only as far as they were read, and only for images
    ensures after.width == if isImage && !read.ReadFailed? then Some(read.width) else before.width
    ensures after.height == if isImage && read.Read? then Some(read.height) else before.height
    // the supplied thumbnail, when the supplier is called, or else the old one,
    // survives unless it is blank or null; then the file path takes its place
    ensures var offered := if SupplierInvoked(isImage, read, supplier) then supplier.value.path else before.thumbPath;
      after.thumbPath == if IsBlankOrNull(offered) then before.filePath else offered
  {
    var tried :=
      if !isImage then before
      else (match read
        case ReadFailed => before
        case HeightFailed(w) => before.(width := Some(w))
        case Read(w, h) =>
          var sized := before.(width := Some(w), height := Some(h));
          if supplier.Some? then sized.(thumbPath := supplier.value.path) else sized);
    if IsBlankOrNull(tried.thumbPath) then tried.(thumbPath := tried.filePath) else tried
  }

  /**
   * `handleImageMetadata`: for an image, read its dimensions into `result` and
   * then ask the supplier (if any) for a thumbnail; an IOException or an
   * OutOfMemoryError while reading is swallowed. Finally a blank thumbnail
   * path falls back to the file path. Returns how often the supplier was called.
   */
  method HandleImageMetadata(file: MultipartFile, result: UploadResult, supplier: Option<Thumbnailer>, read: ImageRead)
    returns (supplierCalls: nat)
    modifies result
    ensures result.Record() == AfterImageMetadata(old(result.Record()), IsImageType(file), read, supplier)
    ensures supplierCalls == if SupplierInvoked(IsImageType(file), read, supplier) then 1 else 0
  {
    supplierCalls := 0;
    if IsImageType(file) {
      match read {
        case ReadFailed =>
        case HeightFailed(w) =>
          result.width := Some(w);
        case Read(w, h) =>
          result.width := Some(w);
          result.height := Some(h);
          if supplier.Some? {
            result.thumbPath := supplier.value.path;
            supplierCalls := 1;
          }
      }
    }
    if IsBlankOrNull(result.thumbPath) {
      result.thumbPath := result.filePath;
    }
  }

  /** A non-image upload keeps its dimensions and never reaches the supplier. */
  lemma NonImageUntouched(before: UploadRecord, file: MultipartFile, read: ImageRead, supplier: Option<Thumbnailer>)
    requires !IsImageType(file)
    ensures !SupplierInvoked(IsImageType(file), read, supplier)
    ensures var after := AfterImageMetadata(before, IsImageType(file), read, supplier);
      after.width == before.width && after.height == before.height
      && after.thumbPath == if IsBlankOrNull(before.thumbPath) then before.filePath else before.thumbPath
  {
  }

  /** A failed read changes nothing but the thumbnail fallback and never reaches the supplier. */
  lemma FailedReadSwallowed(before: UploadRecord, supplier: Option<Thumbnailer>)
    ensures !SupplierInvoked(true, ReadFailed, supplier)
    ensures AfterImageMetadata(before, true, ReadFailed, supplier)
      == AfterImageMetadata(before, false, ReadFailed, supplier)
  {
  }

  /** The two upload scenarios: a 100 by 200 PNG with a thumbnail, and a plain-text file. */
  lemma UploadScenarios(key: string, path: string)
    ensures var png := MultipartFile(Some(MimeType("image", "png")));
      AfterImageMetadata(UploadRecord(key, Some(path), "png", None, None, None), IsImageType(png),
                         Read(100, 200), Some(Thumbnailer(Some("/thumbs/x.png"))))
      == UploadRecord(key, Some(path), "png", Some(100), Some(200), Some("/thumbs/x.png"))
    ensures var text := MultipartFile(Some(MimeType("text", "plain")));
      AfterImageMetadata(UploadRecord(key, Some(path), "txt", None, None, None), IsImageType(text),
                         Read(100, 200), Some(Thumbnailer(Some("/thumbs/x.png"))))
      == UploadRecord(key, Some(path), "txt", None, None, Some(path))
  {
    assert !IsWhitespace("/thumbs/x.png"[0]);
  }
}
