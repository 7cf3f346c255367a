/** The firmware download check of `testFirmwareUrl` (flash.js:53-77). */
module Firmware {
  import opened Wrappers

  const OctetStream: string := "application/octet-stream"
  const Bytes: string := "bytes"

  /** The two string errors the header check throws. */
  datatype HeaderError = ContentTypeInvalid | RangesUnsupported

  /** The `response` of an axios error: its status code and reason phrase. */
  datatype HttpStatus = HttpStatus(status: int, statusText: string)

  /**
   * The outcome of the GET on the firmware URL: a rejected request (with the HTTP
   * response when the server answered with an error status) or the two headers.
   */
  datatype FetchOutcome =
    | TransportFailure(response: Option<HttpStatus>)
    | Fetched(contentType: Option<string>, acceptRanges: Option<string>)

  /** The negation of `!h || h != expected`: the header is set, non-empty and equal to `expected`. */
  predicate HeaderIs(h: Option<string>, expected: string) {
    h.Some? && h.value != "" && h.value == expected
  }

  /** The first header check that fails, content-type before accept-ranges. */
  function CheckHeaders(contentType: Option<string>, acceptRanges: Option<string>): (r: Option<HeaderError>)
    ensures r.None? <==> contentType == Some(OctetStream) && acceptRanges == Some(Bytes)
    ensures r == Some(ContentTypeInvalid) <==> contentType != Some(OctetStream)
    ensures r == Some(RangesUnsupported) <==> contentType == Some(OctetStream) && acceptRanges != Some(Bytes)
  {
    if !HeaderIs(contentType, OctetStream) then Some(ContentTypeInvalid)
    else if !HeaderIs(acceptRanges, Bytes) then Some(RangesUnsupported)
    else None
  }
}
