/**
 * The decoding path of main.py: decode_qr_code (main.py:28-40) turns the
 * detector's outcome into a string, and the /qr_to_link handler
 * (main.py:79-99) files that string under "url" or "error". Image decoding,
 * preprocessing and QR detection are foreign library calls and enter as
 * function parameters.
 */
module QrDecoding {
  import opened Wrappers

  /** What cv2.QRCodeDetector.detectAndDecode reports. */
  datatype Detection =
    | Located(data: string)  // corner points found; `data` is "" when they could not be decoded
    | NotLocated             // no corner points (vertices_array is None)
    | DetectorRaised         // the detector raised an exception

  const NoQrFound: string := "No QR code found."
  const DecodeError: string := "Error decoding QR code."
  const GenericError: string := "An error occurred while decoding the QR code."

  /** decode_qr_code: the decoded text, or one of two sentinel strings. */
  function DecodeQrCode(d: Detection): string {
    match d
    case Located(data) => data
    case NotLocated => NoQrFound
    case DetectorRaised => DecodeError
  }

  /** The JSON object the handler returns: {"url": s} or {"error": s}. */
  datatype LinkReply = UrlReply(url: string) | ErrorReply(error: string) {
    function Text(): string {
      match this
      case UrlReply(s) => s
      case ErrorReply(s) => s
    }
  }

  /** The `url.startswith("http")` branch (main.py:93-96). */
  function Classify(s: string): (r: LinkReply)
    ensures r.UrlReply? <==> "http" <= s
    ensures r.Text() == s
  {
    if "http" <= s then UrlReply(s) else ErrorReply(s)
  }

  /**
   * The steps that may raise before decode_qr_code is reached: cv2.imdecode
   * (None when the bytes are not an image) and preprocess_image (None when
   * it fails). None here stands for every way the handler's `try` is left
   * early.
   */
  function Detect<Img>(contents: seq<bv8>, imdecode: seq<bv8> -> Option<Img>,
                       preprocess: Img -> Option<Img>, detect: Img -> Detection): Option<Detection>
  {
    match imdecode(contents)
    case None => None
    case Some(image) =>
      match preprocess(image)
      case None => None
      case Some(pre) => Some(detect(pre))
  }

  /** The /qr_to_link handler. */
  function QrToLink<Img>(contents: seq<bv8>, imdecode: seq<bv8> -> Option<Img>,
                         preprocess: Img -> Option<Img>, detect: Img -> Detection): (r: LinkReply)
    ensures var d := Detect(contents, imdecode, preprocess, detect);
            && (d == None ==> r == ErrorReply(GenericError))
            && (r.UrlReply? <==> d.Some? && d.value.Located? && "http" <= d.value.data)
            && (d.Some? && d.value.Located? ==> r.Text() == d.value.data)
            && (d == Some(NotLocated) ==> r == ErrorReply(NoQrFound))
            && (d == Some(DetectorRaised) ==> r == ErrorReply(DecodeError))
  {
    match Detect(contents, imdecode, preprocess, detect)
    case None => ErrorReply(GenericError)
    case Some(d) => SentinelsAreErrors(); Classify(DecodeQrCode(d))
  }

  /** Neither sentinel starts with "http", so both are always reported as errors. */
  lemma SentinelsAreErrors()
    ensures Classify(NoQrFound) == ErrorReply(NoQrFound)
    ensures Classify(DecodeError) == ErrorReply(DecodeError)
  {
    assert NoQrFound[0] != 'h' && DecodeError[0] != 'h';
  }

  /** A symbol located but not decoded yields {"error": ""}. */
  lemma UndecodedSymbolIsEmptyError(d: Detection)
    requires d == Located("")
    ensures Classify(DecodeQrCode(d)) == ErrorReply("")
  {
  }

  /** The reply under "url" always starts with "http" and came from a located symbol. */
  lemma UrlReplyIsDecodedLink<Img>(contents: seq<bv8>, imdecode: seq<bv8> -> Option<Img>,
                                   preprocess: Img -> Option<Img>, detect: Img -> Detection)
    requires QrToLink(contents, imdecode, preprocess, detect).UrlReply?
    ensures var d := Detect(contents, imdecode, preprocess, detect);
            d.Some? && d.value == Located(QrToLink(contents, imdecode, preprocess, detect).url)
    ensures "http" <= QrToLink(contents, imdecode, preprocess, detect).url
  {
  }
}
