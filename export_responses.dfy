/**
 * What `export-pdf.js` and `export-excel.js` share, written identically in
 * both: the status message table, the error response, the success response,
 * the timestamp used to name the exported object, and the calls a handler
 * makes once its guards pass.
 */
module ExportResponses {
  import opened Common
  import Json

  /** The query string parameters an export handler reads; None when absent. */
  datatype Event = Event(url: Option<string>, filename: Option<string>)

  /** `ALLOWED_URL_PATTERN` and `OUTPUT_BUCKET_NAME`; None when unset. */
  datatype Env = Env(pattern: Option<string>, bucket: Option<string>)

  /** The object a response body serialises: `{message}` or `{signedLink}`. */
  datatype Body = MessageBody(message: string) | LinkBody(signedLink: string)

  /** A response; the body as sent is `Text(body)`. */
  datatype HttpResponse = HttpResponse(statusCode: int, body: Body)

  /** `JSON.stringify(body, null, 2)`: the body's one member, indented by two spaces, reads back as its value. */
  function Text(body: Body): (s: string)
    ensures body.MessageBody? ==> Json.ParseIndented("message", s) == Some(body.message)
    ensures body.LinkBody? ==> Json.ParseIndented("signedLink", s) == Some(body.signedLink)
  {
    match body
    case MessageBody(message) =>
      Json.ParseIndentedOf("message", message);
      Json.Indented("message", message)
    case LinkBody(signedLink) =>
      Json.ParseIndentedOf("signedLink", signedLink);
      Json.Indented("signedLink", signedLink)
  }

  /** `messages[code] || 'Internal Server Error'`. */
  function Message(code: int): (m: string)
    ensures code == 400 ==> m == "Bad Request"
    ensures code == 403 ==> m == "Forbidden"
    ensures code != 400 && code != 403 ==> m == "Internal Server Error"
  {
    if code == 400 then "Bad Request"
    else if code == 403 then "Forbidden"
    else if code == 500 then "Internal Server Error"
    else "Internal Server Error"
  }

  /** `error(code)`: the status, and `{message}` with the code's message. */
  function Error(code: int): HttpResponse {
    HttpResponse(code, MessageBody(Message(code)))
  }

  /** An error response carries its code, and its body reads back as the code's message. */
  lemma ErrorBody(code: int)
    ensures Error(code).statusCode == code
    ensures Json.ParseIndented("message", Text(Error(code).body)) == Some(Message(code))
  {
  }

  /** The 200 response, with `{signedLink}`. */
  function Success(signedLink: string): HttpResponse {
    HttpResponse(200, LinkBody(signedLink))
  }

  /** The success response is 200, and its body reads back as the signed link. */
  lemma SuccessBody(signedLink: string)
    ensures Success(signedLink).statusCode == 200
    ensures Json.ParseIndented("signedLink", Text(Success(signedLink).body)) == Some(signedLink)
  {
  }

  const DefaultDownloadName := "onesheet"
  const LinkLifetime := 3600

  /** `queryStringParameters?.filename || "onesheet"`. */
  function DownloadName(filename: Option<string>): (name: string)
    ensures name != ""
    ensures Truthy(filename) ==> name == filename.value
    ensures !Truthy(filename) ==> name == DefaultDownloadName
  {
    if Truthy(filename) then filename.value else DefaultDownloadName
  }

  /** The characters `/[^\dTZ]/g` leaves in place. */
  predicate Kept(c: char) {
    '0' <= c <= '9' || c == 'T' || c == 'Z'
  }

  /** `toISOString().replace(/[^\dTZ]/gm, '')`: only digits, 'T' and 'Z' remain, in order. */
  function Timestamp(iso: string): (r: string)
    ensures |r| <= |iso|
    ensures forall i :: 0 <= i < |r| ==> Kept(r[i])
    ensures (forall i :: 0 <= i < |iso| ==> Kept(iso[i])) ==> r == iso
  {
    if iso == [] then []
    else (if Kept(iso[0]) then [iso[0]] else []) + Timestamp(iso[1..])
  }

  /** Filtering works piecewise, so the timestamp is exactly the kept characters of the ISO string in order. */
  lemma {:induction false} TimestampConcat(a: string, b: string)
    ensures Timestamp(a + b) == Timestamp(a) + Timestamp(b)
  {
    if a != [] {
      assert (a + b)[1..] == a[1..] + b;
      TimestampConcat(a[1..], b);
    } else {
      assert a + b == b;
    }
  }

  predicate Digits(s: string) {
    forall i :: 0 <= i < |s| ==> '0' <= s[i] <= '9'
  }

  /**
   * For an ISO 8601 instant as `toISOString` writes it
   * (`YYYY-MM-DDTHH:mm:ss.sssZ`), the timestamp is its digit fields in order
   * with the 'T' and the 'Z' kept.
   */
  lemma {:induction false} TimestampOfIso(y: string, mo: string, d: string, h: string, mi: string, s: string, ms: string)
    requires Digits(y) && Digits(mo) && Digits(d) && Digits(h) && Digits(mi) && Digits(s) && Digits(ms)
    ensures Timestamp(y + "-" + mo + "-" + d + "T" + h + ":" + mi + ":" + s + "." + ms + "Z")
         == y + mo + d + "T" + h + mi + s + ms + "Z"
  {
    var p, t := y, y;
    AppendDropped(p, '-'); p := p + "-";
    AppendKept(p, mo); p, t := p + mo, t + mo;
    AppendDropped(p, '-'); p := p + "-";
    AppendKept(p, d); p, t := p + d, t + d;
    AppendKept(p, "T"); p, t := p + "T", t + "T";
    AppendKept(p, h); p, t := p + h, t + h;
    AppendDropped(p, ':'); p := p + ":";
    AppendKept(p, mi); p, t := p + mi, t + mi;
    AppendDropped(p, ':'); p := p + ":";
    AppendKept(p, s); p, t := p + s, t + s;
    AppendDropped(p, '.'); p := p + ".";
    AppendKept(p, ms); p, t := p + ms, t + ms;
    AppendKept(p, "Z");
  }

  lemma AppendKept(p: string, piece: string)
    requires forall i :: 0 <= i < |piece| ==> Kept(piece[i])
    ensures Timestamp(p + piece) == Timestamp(p) + piece
  {
    TimestampConcat(p, piece);
  }

  lemma AppendDropped(p: string, c: char)
    requires !Kept(c)
    ensures Timestamp(p + [c]) == Timestamp(p)
  {
    TimestampConcat(p, [c]);
    assert [c][1..] == [];
  }

  /** A call a handler makes once its guards pass, with its arguments. */
  datatype Call =
    | PrepareDataForExcel(url: string)
    | GeneratePdf(url: string, path: string)
    | GenerateXlsx(data: string, path: string)
    | UploadToBucket(bucket: string, name: string, path: string, contentType: string)
    | Unlink(path: string)
    | CreateSignedLink(bucket: string, name: string, seconds: int, downloadName: string)

  /** The response and the calls made, in order. */
  datatype Outcome = Outcome(response: HttpResponse, calls: seq<Call>)

  /** The dependencies a handler cannot see: the URL pattern test, the clock, slugify and the signer. */
  datatype Services = Services(
    matches: (string, string) -> bool,
    isoNow: string,
    slugify: string -> string,
    sign: (string, string, int, string) -> string)
}
