/**
 * Upload validation (backend/helper/file_handling.go, `IsValidFile`). The
 * MIME type sniffed from the content (`http.DetectContentType`) and the
 * image dimensions read from its header (`image.DecodeConfig`) are inputs.
 */
module FileValidation {
  import opened Wrappers
  import opened Text

  const MAX_DOCS_SIZE := 10 * 1024 * 1024
  const MAX_IMAGE_SIZE := 5 * 1024 * 1024
  const MAX_IMAGE_WIDTH := 4096
  const MAX_IMAGE_HEIGHT := 4096

  const CATEGORY_IMAGE := "image"
  const CATEGORY_DOCUMENT := "document"

  const SUPPORTED_IMAGE_MIMES: set<string> := {"image/jpeg", "image/png", "image/webp"}
  /**
   * The Word document type, written as a prefix plus the rest because the
   * verifier does not look inside a string literal this long, and the proof
   * that no supported type is a text type needs its first characters.
   */
  const DOCX_MIME := "application/" + "vnd.openxmlformats-officedocument.wordprocessingml.document"
  const SUPPORTED_DOCUMENT_MIMES: set<string> := {
    "application/pdf", "application/msword", DOCX_MIME,
    "image/jpeg", "image/png", "image/webp"}

  datatype ValidationError = SizeExceeded(limit: nat) | InvalidCategory | UnsupportedFormat
                           | CorruptImage | DimensionsExceeded

  /** Width and height, or `None` when the header cannot be read. */
  type Dimensions = Option<(int, int)>

  predicate FitsImageBounds(dims: Dimensions) {
    dims.Some? && dims.value.0 <= MAX_IMAGE_WIDTH && dims.value.1 <= MAX_IMAGE_HEIGHT
  }

  /** `IsValidFile`: size first, then the sniffed type, then (images) the dimensions. */
  function IsValidFile(size: nat, category: string, contentType: string, dims: Dimensions): (r: Result<(), ValidationError>)
    ensures category != CATEGORY_IMAGE && category != CATEGORY_DOCUMENT ==> r == Err(InvalidCategory)
    ensures category == CATEGORY_IMAGE ==>
              (r.Ok? <==> size <= MAX_IMAGE_SIZE && contentType in SUPPORTED_IMAGE_MIMES && FitsImageBounds(dims))
    ensures category == CATEGORY_DOCUMENT ==>
              (r.Ok? <==> size <= MAX_DOCS_SIZE && contentType in SUPPORTED_DOCUMENT_MIMES)
    ensures (contentType == "application/octet-stream" || StartsWith(contentType, "text/")) ==> r.Err?
  {
    if category == CATEGORY_IMAGE && size > MAX_IMAGE_SIZE then Err(SizeExceeded(MAX_IMAGE_SIZE))
    else if category == CATEGORY_DOCUMENT && size > MAX_DOCS_SIZE then Err(SizeExceeded(MAX_DOCS_SIZE))
    else if category != CATEGORY_IMAGE && category != CATEGORY_DOCUMENT then Err(InvalidCategory)
    else if contentType == "application/octet-stream" || StartsWith(contentType, "text/") then
      SupportedTypesAreNotText(contentType);
      Err(UnsupportedFormat)
    else if category == CATEGORY_IMAGE then
      if contentType !in SUPPORTED_IMAGE_MIMES then Err(UnsupportedFormat)
      else if dims.None? then Err(CorruptImage)
      else if !FitsImageBounds(dims) then Err(DimensionsExceeded)
      else Ok(())
    else if contentType !in SUPPORTED_DOCUMENT_MIMES then Err(UnsupportedFormat)
    else Ok(())
  }

  /** No supported type is the generic binary type or a text type; the image types are document types too. */
  lemma SupportedTypesAreNotText(contentType: string)
    requires contentType == "application/octet-stream" || StartsWith(contentType, "text/")
    ensures contentType !in SUPPORTED_DOCUMENT_MIMES && contentType !in SUPPORTED_IMAGE_MIMES
  {
    assert SUPPORTED_IMAGE_MIMES <= SUPPORTED_DOCUMENT_MIMES;
    if StartsWith(contentType, "text/") {
      assert contentType[0] == 't';
      assert "application/pdf"[0] == 'a' && "application/msword"[0] == 'a';
      assert DOCX_MIME[0] == "application/"[0];
      assert "image/jpeg"[0] == 'i' && "image/png"[0] == 'i' && "image/webp"[0] == 'i';
    }
  }

  /** The image rules are stricter than the document rules: a valid image is a valid document. */
  lemma ValidImageIsValidDocument(size: nat, contentType: string, dims: Dimensions)
    requires IsValidFile(size, CATEGORY_IMAGE, contentType, dims).Ok?
    ensures IsValidFile(size, CATEGORY_DOCUMENT, contentType, dims).Ok?
  {
  }

  /** Size limits are inclusive: exactly the limit passes, one byte more fails. */
  lemma SizeLimitsInclusive(dims: Dimensions)
    requires FitsImageBounds(dims)
    ensures IsValidFile(MAX_IMAGE_SIZE, CATEGORY_IMAGE, "image/png", dims).Ok?
    ensures IsValidFile(MAX_IMAGE_SIZE + 1, CATEGORY_IMAGE, "image/png", dims) == Err(SizeExceeded(MAX_IMAGE_SIZE))
    ensures IsValidFile(MAX_DOCS_SIZE, CATEGORY_DOCUMENT, "application/pdf", None).Ok?
    ensures IsValidFile(MAX_DOCS_SIZE + 1, CATEGORY_DOCUMENT, "application/pdf", None) == Err(SizeExceeded(MAX_DOCS_SIZE))
  {
  }
}
