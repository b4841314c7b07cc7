/**
 * The upload rule for images: a size bound first, then a list of allowed
 * MIME types.
 */
module AssetValidators {
  import opened Wrappers
  import opened Text

  const TooLargeMessage := "Too large file, it must be less than 5MB"

  function NotAllowedMessage(allowed: seq<string>): string
  {
    "Not allowed file type, allowed types: " + Join(allowed, ", ")
  }

  /** What the service sees of an uploaded file: its size in bytes and its declared content type. */
  datatype Upload = Upload(size: int, contentType: Option<string>)

  predicate TypeAllowed(contentType: Option<string>, allowed: seq<string>)
  {
    contentType.Some? && contentType.value in allowed
  }

  /** `validate_image`: 413 when too large, otherwise 400 when the type is not listed. */
  function ValidateImage(file: Upload, maxSize: int, allowed: seq<string>): (r: Result<Unit>)
    ensures r.Ok? <==> file.size <= maxSize && TypeAllowed(file.contentType, allowed)
    ensures file.size > maxSize ==> r == Err(Http(413, TooLargeMessage))
    ensures file.size <= maxSize && !TypeAllowed(file.contentType, allowed) ==>
      r == Err(Http(400, NotAllowedMessage(allowed)))
  {
    if file.size > maxSize then Err(Http(413, TooLargeMessage))
    else if !TypeAllowed(file.contentType, allowed) then Err(Http(400, NotAllowedMessage(allowed)))
    else Ok(Unit)
  }

  /** A file of exactly the maximum size passes the size rule; one byte more does not. */
  lemma SizeBoundIsInclusive(maxSize: int, allowed: seq<string>, t: string)
    requires t in allowed
    ensures ValidateImage(Upload(maxSize, Some(t)), maxSize, allowed) == Ok(Unit)
    ensures ValidateImage(Upload(maxSize + 1, Some(t)), maxSize, allowed) == Err(Http(413, TooLargeMessage))
  {
  }
}
