/**
 * File uploads and downloads (backend/handlers/file.go): the extension
 * check, the checks `SaveFile` makes before storing, and the status codes of
 * `ServeFileHandler`. Disk and image decoding are inputs: the upload's size,
 * its dimensions (if it decodes), whether writing to disk succeeds.
 */
module FileHandlers {
  import opened Wrappers
  import opened Text
  import FileValidation

  datatype FileType = JPG | JPEG | PNG | WEBP | PDF | DOC | DOCX {
    function Name(): string {
      match this
      case JPG => "jpg"
      case JPEG => "jpeg"
      case PNG => "png"
      case WEBP => "webp"
      case PDF => "pdf"
      case DOC => "doc"
      case DOCX => "docx"
    }
  }

  /**
   * `filepath.Ext`: the suffix from the last dot of the last path element,
   * or "" when that element has no dot.
   */
  function Ext(path: string): (e: string)
    ensures e == "" <==> '.' !in TailAfterLast(path, '/')
    ensures e != "" ==> e[0] == '.' && '.' !in e[1..] && '/' !in e
    ensures EndsWith(path, e)
  {
    if path == [] || path[|path| - 1] == '/' then ""
    else if path[|path| - 1] == '.' then
      assert path[|path| - 1..] == ".";
      "."
    else
      var init := path[..|path| - 1];
      var e := Ext(init);
      assert TailAfterLast(path, '/') == TailAfterLast(init, '/') + [path[|path| - 1]];
      if e == "" then "" else
        assert path[|path| - |e| - 1..] == init[|init| - |e|..] + [path[|path| - 1]];
        e + [path[|path| - 1]]
  }

  /** A name ending in a dot and a dot-free, slash-free suffix has that extension. */
  lemma {:induction false} ExtOf(base: string, suffix: string)
    requires '.' !in suffix && '/' !in suffix
    ensures Ext(base + "." + suffix) == "." + suffix
    decreases |suffix|
  {
    var path := base + "." + suffix;
    if suffix != [] {
      var init := suffix[..|suffix| - 1];
      assert path[..|path| - 1] == base + "." + init;
      ExtOf(base, init);
      assert suffix == init + [suffix[|suffix| - 1]];
    }
  }

  datatype FileError = NoExtension | UnsupportedType(ext: string) | InvalidCategory
                     | SizeExceeded | CannotReadDimensions | DimensionsExceeded | StoreFailed

  /** `ExtractFileType`: the lower-cased extension must be one of the seven supported ones. */
  function ExtractFileType(filename: string): (r: Result<FileType, FileError>)
    ensures Ext(filename) == "" <==> r == Err(NoExtension)
    ensures r.Ok? ==> ToLower(Ext(filename)) == "." + r.value.Name()
  {
    var ext := ToLower(Ext(filename));
    if ext == "" then Err(NoExtension)
    else
      var name := ext[1..];
      assert ext == [ext[0]] + name;
      if name == "jpg" then Ok(JPG)
      else if name == "jpeg" then Ok(JPEG)
      else if name == "png" then Ok(PNG)
      else if name == "webp" then Ok(WEBP)
      else if name == "pdf" then Ok(PDF)
      else if name == "doc" then Ok(DOC)
      else if name == "docx" then Ok(DOCX)
      else Err(UnsupportedType(name))
  }

  lemma ExtractFromExtension(filename: string, t: FileType)
    requires ToLower(Ext(filename)) == "." + t.Name()
    ensures ExtractFileType(filename) == Ok(t)
  {
    var name := ToLower(Ext(filename))[1..];
    assert name == t.Name();
    match t
    case JPG =>
    case JPEG => assert name != "jpg";
    case PNG => assert name != "jpg" && name != "jpeg";
    case WEBP => assert name != "jpg" && name != "jpeg" && name != "png";
    case PDF => assert name != "jpg" && name != "jpeg" && name != "png" && name != "webp";
    case DOC => assert name != "jpg" && name != "jpeg" && name != "png" && name != "webp" && name != "pdf";
    case DOCX => assert name != "jpg" && name != "jpeg" && name != "png" && name != "webp" && name != "pdf" && name != "doc";
  }

  predicate LowerLetters(s: string) {
    forall i :: 0 <= i < |s| ==> 'a' <= s[i] <= 'z'
  }

  /** A lower-case extension, written in either case, lower-cases back to itself. */
  lemma ExtensionInAnyCase(base: string, name: string, upper: bool)
    requires LowerLetters(name)
    ensures var suffix := if upper then ToUpper(name) else name;
            ToLower(Ext(base + "." + suffix)) == "." + name
  {
    var suffix := if upper then ToUpper(name) else name;
    assert '.' !in suffix && '/' !in suffix by {
      forall i | 0 <= i < |suffix| ensures suffix[i] != '.' && suffix[i] != '/' {
        assert 'a' <= name[i] <= 'z';
      }
    }
    ExtOf(base, suffix);
    assert ToLower(suffix) == name by {
      assert IsLowerCase(name);
      LowerOfUpper(name);
    }
    ToLowerAppend(".", suffix);
    assert ToLower(".") == ".";
  }

  /** Every supported type is recognised from its extension, in any letter case. */
  lemma ExtractFileTypeRoundTrip(base: string, t: FileType, upper: bool)
    ensures ExtractFileType(base + "." + (if upper then ToUpper(t.Name()) else t.Name())) == Ok(t)
  {
    assert LowerLetters(t.Name());
    ExtensionInAnyCase(base, t.Name(), upper);
    ExtractFromExtension(base + "." + (if upper then ToUpper(t.Name()) else t.Name()), t);
  }

  /** An upload as the handler sees it. */
  datatype Upload = Upload(filename: string, size: int, dims: FileValidation.Dimensions)

  /** A row of the `files` table. */
  datatype FileRecord = FileRecord(id: nat, userId: string, fileType: FileType, category: string)

  predicate KnownCategory(category: string) {
    category == FileValidation.CATEGORY_IMAGE || category == FileValidation.CATEGORY_DOCUMENT
  }

  /** The checks `SaveFile` makes before anything is stored, in the source's order. */
  function CheckUpload(category: string, upload: Upload): (r: Result<FileType, FileError>)
    ensures category != FileValidation.CATEGORY_IMAGE && category != FileValidation.CATEGORY_DOCUMENT ==>
              r == Err(InvalidCategory)
    ensures r.Ok? ==> ExtractFileType(upload.filename) == Ok(r.value)
    ensures r.Ok? && category == FileValidation.CATEGORY_DOCUMENT ==> upload.size <= FileValidation.MAX_DOCS_SIZE
    ensures r.Ok? && category == FileValidation.CATEGORY_IMAGE ==>
              upload.size <= FileValidation.MAX_IMAGE_SIZE && FileValidation.FitsImageBounds(upload.dims)
    ensures r.Ok? <==>
              KnownCategory(category) && ExtractFileType(upload.filename).Ok?
              && (category == FileValidation.CATEGORY_DOCUMENT ==> upload.size <= FileValidation.MAX_DOCS_SIZE)
              && (category == FileValidation.CATEGORY_IMAGE ==>
                    upload.size <= FileValidation.MAX_IMAGE_SIZE && FileValidation.FitsImageBounds(upload.dims))
    ensures KnownCategory(category) && ExtractFileType(upload.filename).Err? ==>
              r == Err(ExtractFileType(upload.filename).error)
    ensures category == FileValidation.CATEGORY_IMAGE && ExtractFileType(upload.filename).Ok? ==>
              (upload.size <= FileValidation.MAX_IMAGE_SIZE && upload.dims.None? ==> r == Err(CannotReadDimensions))
  {
    if category != FileValidation.CATEGORY_IMAGE && category != FileValidation.CATEGORY_DOCUMENT then Err(InvalidCategory)
    else match ExtractFileType(upload.filename)
      case Err(e) => Err(e)
      case Ok(t) =>
        if category == FileValidation.CATEGORY_DOCUMENT && upload.size > FileValidation.MAX_DOCS_SIZE then Err(SizeExceeded)
        else if category == FileValidation.CATEGORY_IMAGE then
          if upload.size > FileValidation.MAX_IMAGE_SIZE then Err(SizeExceeded)
          else if upload.dims.None? then Err(CannotReadDimensions)
          else if !FileValidation.FitsImageBounds(upload.dims) then Err(DimensionsExceeded)
          else Ok(t)
        else Ok(t)
  }

  /** The `files` table. */
  class FileStore {
    var files: seq<FileRecord>
    var nextId: nat

    ghost predicate Valid()
      reads this
    {
      forall i :: 0 <= i < |files| ==> files[i].id < nextId
    }

    constructor ()
      ensures Valid() && files == [] && nextId == 0
    {
      files := [];
      nextId := 0;
    }

    /**
     * `SaveFile`: on passing checks a row is created; if writing the upload
     * to disk then fails, the row is deleted again and an error returned.
     */
    method SaveFile(userId: string, upload: Upload, category: string, diskWriteSucceeds: bool)
      returns (r: Result<FileRecord, FileError>)
      requires Valid()
      modifies this
      ensures Valid()
      ensures CheckUpload(category, upload).Err? ==> r == Err(CheckUpload(category, upload).error) && files == old(files)
      ensures CheckUpload(category, upload).Ok? && !diskWriteSucceeds ==> r == Err(StoreFailed) && files == old(files)
      ensures CheckUpload(category, upload).Ok? && diskWriteSucceeds ==>
                r == Ok(FileRecord(old(nextId), userId, CheckUpload(category, upload).value, category))
                && files == old(files) + [r.value]
    {
      var checked := CheckUpload(category, upload);
      if checked.Err? {
        return Err(checked.error);
      }
      var record := FileRecord(nextId, userId, checked.value, category);
      files := files + [record];
      nextId := nextId + 1;
      if !diskWriteSucceeds {
        files := files[..|files| - 1];
        return Err(StoreFailed);
      }
      r := Ok(record);
    }
  }

  /** A file id may not name another directory: no slash, backslash or "..". */
  predicate SafeFileId(id: string) {
    !Contains(id, "/") && !Contains(id, "\\") && !Contains(id, "..")
  }

  datatype Lookup = Found(userId: string) | NotFound | LookupFailed
  datatype OpenResult = Opened | Missing | OpenFailed

  /**
   * Status of `ServeFileHandler`: 400 for an unsafe id, 404/500 for the
   * lookup, 403 for a deactivated owner, then the disk outcome.
   */
  function ServeFileStatus(id: string, lookup: Lookup, ownerDeactivated: bool, open: OpenResult, readOk: bool): (status: int)
    ensures !SafeFileId(id) <==> status == 400
    ensures status == 200 <==> SafeFileId(id) && lookup.Found? && !ownerDeactivated && open.Opened? && readOk
    ensures SafeFileId(id) && lookup.NotFound? ==> status == 404
    ensures SafeFileId(id) && lookup.LookupFailed? ==> status == 500
    ensures SafeFileId(id) && lookup.Found? && ownerDeactivated ==> status == 403
    ensures SafeFileId(id) && lookup.Found? && !ownerDeactivated ==>
              (open.Missing? ==> status == 404) && (open.OpenFailed? ==> status == 500)
              && (open.Opened? && !readOk ==> status == 500)
  {
    if !SafeFileId(id) then 400
    else match lookup
      case NotFound => 404
      case LookupFailed => 500
      case Found(_) =>
        if ownerDeactivated then 403
        else match open
          case Missing => 404
          case OpenFailed => 500
          case Opened => if readOk then 200 else 500
  }

  /** Ids that step out of the file directory are refused, as the file tests expect. */
  lemma ServeFileRejectsTraversal(lookup: Lookup, deactivated: bool, open: OpenResult, readOk: bool)
    ensures ServeFileStatus("..", lookup, deactivated, open, readOk) == 400
    ensures ServeFileStatus("\\backslash", lookup, deactivated, open, readOk) == 400
  {
    assert OccursAt("..", "..", 0);
    OccursImpliesContains("..", "..", 0);
    assert OccursAt("\\backslash", "\\", 0);
    OccursImpliesContains("\\backslash", "\\", 0);
  }
}
