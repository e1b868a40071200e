/** The file record ("asset") fields the resize pass and the deletion
    cascade read. */
module Assets {
  import opened Wrappers

  /** `{width, height}` of a requested derivative or of an origin image. */
  datatype Dimensions = Dimensions(width: int, height: int)

  /** A `url` property as a record carries it: absent, present with the
      value `null`, or present with a string (possibly the empty one). */
  datatype UrlField = NoUrl | NullUrl | UrlText(text: string)

  /** One entry of `resizes`: a requested box and, once produced, the URL
      of the derivative. */
  datatype DerivativeSpec = DerivativeSpec(dimensions: Dimensions, url: UrlField)

  /** The file record as the resize pass and the cascade see it.
      `resizes == None` is a record without a `resizes` property. The
      record's `mime_type` only reaches the signing and upload calls of a
      derivative job, which are outcomes here, so it is not a field. */
  datatype Asset = Asset(
    id: string,
    url: UrlField,
    resizes: Option<seq<DerivativeSpec>>)

  /** `"url" in resize`: the skip check's notion of a produced derivative. */
  predicate HasUrlKey(spec: DerivativeSpec)
  {
    !spec.url.NoUrl?
  }

  /** `resize.url` is truthy: the per-spec pass-through test. */
  predicate HasUrl(spec: DerivativeSpec)
  {
    spec.url.UrlText? && spec.url.text != ""
  }

  /** `resizes.every(resize => "url" in resize)`. */
  predicate AllResolved(specs: seq<DerivativeSpec>)
  {
    forall i :: 0 <= i < |specs| ==> HasUrlKey(specs[i])
  }
}
