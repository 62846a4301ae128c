# QR-Generator core, modelled in Dafny

The service in `main.py` is a FastAPI app that decodes QR codes from
uploaded images and generates QR code PNGs from a URL, an email address or
a mobile number. Image handling, QR detection and QR encoding are done by
foreign libraries (OpenCV, `qrcode`, PIL). This model covers the logic the
app adds around them:

- **Validators** (`Validators.dfy`): `is_valid_url`, `is_valid_email` and
  `is_valid_mobile_number`. Dafny has no regular expressions, so each is a
  `re.match` of an anchored pattern `^BODY$`, written as a recognizer that
  follows the pattern's shape. `IndexOf`, `LastIndexOf`, `AllIn`,
  `OneOrMore` and `Repeat` are the character-run helpers. Each recognizer
  is proved equal to a plain-language reference definition. Python's `$`
  without MULTILINE also matches just before one final `'\n'`.
  `MatchesWhole` models this, and all three validators accept such a string.
- **Decode classification** (`Decoding.dfy`): `decode_qr_code` maps the
  detector outcome to the decoded text or one of two sentinel strings. The
  `/qr_to_link` handler puts that text under `url` when it starts with
  `"http"` and under `error` otherwise. Any earlier failure gives a fixed
  generic error. Image decoding, preprocessing and detection are function
  parameters (oracles).
- **Generation state** (`Service.dfy`): class `QrServer` holds the
  module-level `generated_qr_image` as an `Option<seq<bv8>>` field. The
  encoder `generate_qr_code` is a function-valued constant given at
  construction; it returns `None` when the library raises. The three
  generate handlers and `download_qr` are methods that change or read that
  field. Client methods at the end run request series against a fresh
  server.

Responses are reduced to a status code, a body and an optional attachment
file name. Body `Image` is a PNG payload. Body `Text` is a plain
`Response(content=str)`. Body `Detail` is a raised `HTTPException` with its
detail string.

Three behaviours of the code that a reader may not expect, all modelled as
written:
- A mobile number is ten ASCII digits *optionally followed by one final
  newline*, not just exactly ten digits.
- A URL whose part after `://` starts with `/` (`http:///x`) is rejected,
  although it matches `^https?://\S+$`.
- `download_qr` also answers 404 when the stored image is empty bytes.

## Model

| member | source | states |
|---|---|---|
| Validators.UrlSegmentsIff | main.py:63 | `(?:/[^/\s]*)*` matches exactly the strings that are empty, or that start with `/` and contain no whitespace |
| Validators.UrlHostAndPathIff | main.py:63 | `[^/\s]+(?:/[^/\s]*)*` matches exactly the non-empty, whitespace-free strings not starting with `/`; empty segments such as `a//b` are allowed |
| Validators.UrlBodyIff | main.py:63 | the URL pattern body matches iff the string is `http://` or `https://` followed by such a rest |
| Validators.IsValidUrlIff | main.py:61-65 | is_valid_url accepts exactly the plain URL description, optionally followed by one final `'\n'` |
| Validators.UrlNeedsScheme | main.py:63 | a string with neither an `http://` nor an `https://` prefix is rejected |
| Validators.UrlEmptySegments | main.py:63 | `http://a//b` is accepted |
| Validators.UrlTrailingNewline | main.py:61-65 | `https://a/` followed by a newline is accepted |
| Validators.UrlRejections | main.py:63-65 | `http:///x`, `http://a b`, `ftp://x` and the empty string are rejected |
| Validators.DomainBodyIff | main.py:69 | `[\w\.-]+\.\w+` matches iff all characters are allowed, the last `.` has at least one character before it and only word characters (at least one, no `-`) after it |
| Validators.EmailBodyIff | main.py:69 | the email pattern body matches iff the part before the first `@` is a non-empty run of allowed characters and the rest is such a domain |
| Validators.IsValidEmailIff | main.py:67-71 | is_valid_email accepts exactly the plain email description, optionally followed by one final `'\n'` |
| Validators.EmailPlainOneAt | main.py:69 | a string meeting the plain email description contains exactly one `@` |
| Validators.EmailHasOneAt | main.py:67-71 | every accepted email contains exactly one `@` |
| Validators.EmailAcceptsDotted | main.py:69 | `a.b-c@m.ex.io` is accepted |
| Validators.EmailTrailingNewline | main.py:67-71 | `x@y.z` followed by a newline is accepted |
| Validators.EmailRejections | main.py:69 | the empty string, `x@y.z-` (hyphen after the last dot) and `x@.z` (nothing between `@` and the last dot) are rejected |
| Validators.RepeatIff | main.py:75 | `cls{n}` matches exactly the strings of length n made of `cls` characters |
| Validators.IsValidMobileNumberIff | main.py:73-77 | is_valid_mobile_number accepts exactly ten ASCII digits, optionally followed by one final `'\n'` |
| Validators.MobileLength | main.py:73-77 | an accepted number has length 10, or 11 ending in `'\n'`; the empty string and other lengths are rejected |
| Validators.MobileExamples | main.py:75 | `0123456789` and `0123456789` plus a newline are accepted; the empty string, a non-digit and a `+` prefix are rejected |
| QrDecoding.Classify | main.py:93-96 | the reply is under `url` iff the text starts with `"http"`, and it carries the text unchanged |
| QrDecoding.QrToLink | main.py:79-99 | a failure before detection gives `{"error": generic message}`; the reply is under `url` iff a symbol was located and its text starts with `"http"`; a located symbol's text is reported unchanged; no symbol gives `{"error": "No QR code found."}`, a raising detector `{"error": "Error decoding QR code."}` |
| QrDecoding.SentinelsAreErrors | main.py:32-40 | both sentinel strings are always filed under `error` |
| QrDecoding.UndecodedSymbolIsEmptyError | main.py:31-34 | a symbol located but not decoded (empty data) yields `{"error": ""}` |
| QrDecoding.UrlReplyIsDecodedLink | main.py:92-94 | a reply under `url` is the text of a located symbol and starts with `"http"` |
| QrService.QrServer.constructor | main.py:16 | at start the cell holds None |
| QrService.QrServer.StoreGenerated | main.py:106-110 | the cell is overwritten with the encoder result; None gives 500, otherwise 200 with exactly the new cell's bytes |
| QrService.QrServer.GenerateQr | main.py:101-110 | an invalid URL gives 400 `Invalid URL provided` and leaves the cell unchanged; a valid one overwrites the cell with the encoder result, answering 500 on None and the image otherwise |
| QrService.QrServer.EmailToQr | main.py:112-121 | the same for emails, with a 400 `HTTPException` on an invalid email |
| QrService.QrServer.MobileToQr | main.py:123-132 | the same for mobile numbers, with a 400 `HTTPException` on an invalid number |
| QrService.QrServer.DownloadQr | main.py:134-145 | a None or empty cell gives 404; otherwise 200 with exactly the stored bytes and attachment name `qr_code.png`; the cell is not changed |
| QrService.DownloadAtStart | main.py:16 | a download before any generation is answered 404 |
| QrService.GenerateThenDownload | main.py:101-145 | right after a generate call, a download returns the same image when it is non-empty, and 404 after an invalid input, a failed encoding or an empty image |
| QrService.FailedGenerationLosesImage | main.py:106-109 | after a successful generation, a later failed encoding clears the cell, so the earlier image can no longer be downloaded |
| QrService.InvalidInputKeepsImage | main.py:125-126 | a rejected input leaves the earlier image downloadable |

## Left out

- `preprocess_image` (main.py:18-26): OpenCV resizing, grayscale conversion and histogram equalisation are foreign image numerics. They are a parameter `preprocess` that may fail (`None`).
- `cv2.imdecode` and `cv2.QRCodeDetector.detectAndDecode` (main.py:30-31, 84): foreign calls. They are the parameters `imdecode` and `detect`; what symbol is found in which image is not modelled.
- `generate_qr_code` (main.py:42-59): the `qrcode`/PIL encoding to PNG is a foreign call. It is the constant `QrServer.encoder`. QR symbol encoding is not specified, so the encode/decode round trip is not stated.
- FastAPI plumbing: routing, `Query`/`Form`/`UploadFile` parsing and the `async` read of the upload are not modelled. The upload's bytes are a parameter, and a failing read is one more early failure with the generic error. Responses are reduced to status, body kind and attachment name; media types and JSON shapes are implied by the body kind.
- Logging calls: they have no effect on results.
- Concurrent requests: handlers run as a sequential series of method calls. Races on `generated_qr_image` between concurrent requests are not modelled.
- Batch and zip-archive endpoints: main.py has none.
- Validators.IsWordChar: Python's `\w` on `str` patterns is Unicode-aware. The model uses its ASCII part, letters, digits and `_`, so non-ASCII letters are treated as not word characters.
- Validators.IsSpace: Python's `\s` is Unicode-aware. The model uses its ASCII part, code points 9-13, 28-31 and 32, so non-ASCII whitespace is treated as an ordinary character.
