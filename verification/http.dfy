/** Requests the scenario issues and the responses it receives, and the
    `post` helper used to create the patient and the practitioner. */
module Http {
  import opened Wrappers
  import opened Location
  import Json
  import Bundles

  type Headers = map<string, string>

  datatype Method = Get | Post

  /** A rendered template, the serialized transaction bundle (as stored in
      `documentBundle`, possibly never built), or no body. */
  datatype Payload = NoBody | Text(text: string) | Document(bundle: Option<Bundles.Bundle>)

  datatype Request = Request(verb: Method, url: string, headers: Headers, body: Payload)

  /** `err` set, or a response: status, the `location` header, and the body
      after `JSON.parse` (`None` when the body is not JSON). */
  datatype Response =
    | TransportError
    | Reply(status: int, location: Option<string>, body: Option<Json.Value>)

  /** Why the run stops early: `die` (exit 1), an uncaught TypeError, or the
      test harness bailing out on a failed assertion. */
  datatype Halt = Fatal | Crash | Bail

  /** The server, as far as the scenario can tell: a response for each request. */
  type Server = Request -> Response

  /** `post`'s callback: `die` on a transport error or any status other than
      201; otherwise the reference handed to `onSuccess`, `undefined` when the
      response carries no (or an empty) Location header. */
  function PostOutcome(resp: Response, rt: string): (r: Result<Option<string>, Halt>)
    requires IsPlainName(rt)
    ensures r.Ok? <==> resp.Reply? && resp.status == 201
    ensures r.Err? ==> r.error == Fatal
    ensures r.Ok? ==> (r.value.None? <==> resp.location.None? || resp.location.value == "")
    ensures r.Ok? && r.value.Some? ==> r.value.value == ExtractReference(resp.location.value, rt)
  {
    match resp
    case TransportError => Err(Fatal)
    case Reply(status, location, _) =>
      if status != 201 then Err(Fatal)
      else if location.Some? && location.value != "" then Ok(Some(ExtractReference(location.value, rt)))
      else Ok(None)
  }
}
