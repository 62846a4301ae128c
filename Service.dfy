/**
 * The generation endpoints of main.py and the one piece of process-wide
 * state they share: the module-level `generated_qr_image` (main.py:16),
 * overwritten by /generate_qr, /email_to_qr and /mobile_to_qr and read by
 * /download_qr. Requests are modelled as a sequential series of method
 * calls on one server object.
 */
module QrService {
  import opened Wrappers
  import opened Validators

  type Bytes = seq<bv8>

  /** What a response carries. An Image body is sent as image/png. */
  datatype Body =
    | Image(bytes: Bytes)     // Response(content=<bytes>, media_type="image/png")
    | Text(text: string)      // Response(content=<str>)
    | Detail(detail: string)  // raise HTTPException(detail=<str>)

  /** A response reduced to its status code, body and attachment file name. */
  datatype Response = Response(status: int, body: Body, attachment: Option<string>)

  const GenerateFailed: Response := Response(500, Text("Error generating QR code"), None)
  const InvalidUrl: Response := Response(400, Text("Invalid URL provided"), None)
  const InvalidEmail: Response := Response(400, Detail("Invalid email address provided"), None)
  const InvalidMobile: Response := Response(400, Detail("Invalid mobile number provided"), None)
  const NothingGenerated: Response := Response(404, Detail("No QR code generated yet"), None)

  /** Python truthiness of the cell: both None and empty bytes are falsy. */
  predicate Truthy(image: Option<Bytes>) {
    image.Some? && |image.value| > 0
  }

  class QrServer {
    /** generate_qr_code (main.py:42-59): the PNG bytes of a QR symbol for
        the payload, or None when the qrcode/PIL library raised. */
    const encoder: string -> Option<Bytes>

    /** generated_qr_image: the most recently generated image. */
    var generatedQrImage: Option<Bytes>

    /** Process start: nothing generated yet. */
    constructor (encoder: string -> Option<Bytes>)
      ensures this.encoder == encoder
      ensures generatedQrImage == None
    {
      this.encoder := encoder;
      generatedQrImage := None;
    }

    /** The tail shared by the three generate handlers: overwrite the cell
        with the encoder's result, then answer 500 if it is None and the
        image otherwise. */
    method StoreGenerated(payload: string) returns (resp: Response)
      modifies this`generatedQrImage
      ensures generatedQrImage == encoder(payload)
      ensures encoder(payload).None? ==> resp == GenerateFailed
      ensures encoder(payload).Some? ==>
                resp == Response(200, Image(encoder(payload).value), None)
    {
      generatedQrImage := encoder(payload);
      if generatedQrImage.None? {
        return GenerateFailed;
      }
      resp := Response(200, Image(generatedQrImage.value), None);
    }

    /** POST /generate_qr. */
    method GenerateQr(url: string) returns (resp: Response)
      modifies this`generatedQrImage
      ensures !IsValidUrl(url) ==>
                resp == InvalidUrl && generatedQrImage == old(generatedQrImage)
      ensures IsValidUrl(url) ==> generatedQrImage == encoder(url)
      ensures IsValidUrl(url) && encoder(url).None? ==> resp == GenerateFailed
      ensures IsValidUrl(url) && encoder(url).Some? ==>
                resp == Response(200, Image(encoder(url).value), None)
    {
      if !IsValidUrl(url) {
        return InvalidUrl;
      }
      resp := StoreGenerated(url);
    }

    /** POST /email_to_qr. */
    method EmailToQr(email: string) returns (resp: Response)
      modifies this`generatedQrImage
      ensures !IsValidEmail(email) ==>
                resp == InvalidEmail && generatedQrImage == old(generatedQrImage)
      ensures IsValidEmail(email) ==> generatedQrImage == encoder(email)
      ensures IsValidEmail(email) && encoder(email).None? ==> resp == GenerateFailed
      ensures IsValidEmail(email) && encoder(email).Some? ==>
                resp == Response(200, Image(encoder(email).value), None)
    {
      if !IsValidEmail(email) {
        return InvalidEmail;
      }
      resp := StoreGenerated(email);
    }

    /** POST /mobile_to_qr. */
    method MobileToQr(mobileNumber: string) returns (resp: Response)
      modifies this`generatedQrImage
      ensures !IsValidMobileNumber(mobileNumber) ==>
                resp == InvalidMobile && generatedQrImage == old(generatedQrImage)
      ensures IsValidMobileNumber(mobileNumber) ==> generatedQrImage == encoder(mobileNumber)
      ensures IsValidMobileNumber(mobileNumber) && encoder(mobileNumber).None? ==>
                resp == GenerateFailed
      ensures IsValidMobileNumber(mobileNumber) && encoder(mobileNumber).Some? ==>
                resp == Response(200, Image(encoder(mobileNumber).value), None)
    {
      if !IsValidMobileNumber(mobileNumber) {
        return InvalidMobile;
      }
      resp := StoreGenerated(mobileNumber);
    }

    /** GET /download_qr: never changes the cell. */
    method DownloadQr() returns (resp: Response)
      ensures !Truthy(generatedQrImage) ==> resp == NothingGenerated
      ensures Truthy(generatedQrImage) ==>
                resp == Response(200, Image(generatedQrImage.value), Some("qr_code.png"))
    {
      if !Truthy(generatedQrImage) {
        return NothingGenerated;
      }
      resp := Response(200, Image(generatedQrImage.value), Some("qr_code.png"));
    }
  }

  // ---------------------------------------------------------------------
  // Series of requests against a freshly started process
  // ---------------------------------------------------------------------

  /** A download before any generation is answered 404. */
  method DownloadAtStart(encoder: string -> Option<Bytes>) returns (resp: Response)
    ensures resp.status == 404
  {
    var server := new QrServer(encoder);
    resp := server.DownloadQr();
  }

  /** A download right after a generate call returns that call's image,
      unless the image was empty; after a failed generation it is 404. */
  method GenerateThenDownload(encoder: string -> Option<Bytes>, url: string)
    returns (generated: Response, downloaded: Response)
    ensures !IsValidUrl(url) ==> generated.status == 400 && downloaded.status == 404
    ensures generated.status == 500 ==> downloaded.status == 404
    ensures generated.status == 200 ==> generated.body.Image?
    ensures generated.status == 200 && generated.body.bytes != [] ==>
              downloaded.status == 200 && downloaded.body == generated.body &&
              downloaded.attachment == Some("qr_code.png")
    ensures generated.status == 200 && generated.body.bytes == [] ==> downloaded.status == 404
  {
    var server := new QrServer(encoder);
    generated := server.GenerateQr(url);
    downloaded := server.DownloadQr();
  }

  /** A failed generation clears the cell, so an image stored by an earlier
      successful call can no longer be downloaded. */
  method FailedGenerationLosesImage(encoder: string -> Option<Bytes>, first: string, second: string)
    returns (before: Response, after: Response)
    requires IsValidUrl(first) && Truthy(encoder(first))
    requires IsValidEmail(second) && encoder(second).None?
    ensures before == Response(200, Image(encoder(first).value), Some("qr_code.png"))
    ensures after == NothingGenerated
  {
    var server := new QrServer(encoder);
    var generated := server.GenerateQr(first);
    before := server.DownloadQr();
    var failed := server.EmailToQr(second);
    after := server.DownloadQr();
  }

  /** A rejected input leaves an earlier image downloadable. */
  method InvalidInputKeepsImage(encoder: string -> Option<Bytes>, url: string, mobileNumber: string)
    returns (rejected: Response, downloaded: Response)
    requires IsValidUrl(url) && Truthy(encoder(url))
    requires !IsValidMobileNumber(mobileNumber)
    ensures rejected == InvalidMobile
    ensures downloaded == Response(200, Image(encoder(url).value), Some("qr_code.png"))
  {
    var server := new QrServer(encoder);
    var generated := server.GenerateQr(url);
    rejected := server.MobileToQr(mobileNumber);
    downloaded := server.DownloadQr();
  }
}
