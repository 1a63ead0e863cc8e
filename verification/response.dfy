/**
 * What one request to the registry endpoint can yield, as the lookup client
 * sees it after `requests.get` and `response.json()`.
 */
module Response {

  /** A JSON value as far as the lookup inspects it; a missing key reads as JNull (`dict.get`). */
  datatype Json = JNull | JBool(b: bool) | JStr(s: string) | JOther

  /**
   * The "simples" or "simei" member of the body. `Absent` takes the `{}` default;
   * `NotObject` is a present member that has no `.get` (null, a list, a string, ...).
   */
  datatype Section = Absent | SectionObject(optante: Json) | NotObject

  /**
   * The body of a 200 response. `Unparsable` raises a JSON decoding error, which
   * `requests` (2.27 and later) derives from its RequestException; `NotAnObject`
   * parses to something other than an object, so `dados.get` fails.
   */
  datatype Payload =
    | Unparsable
    | NotAnObject
    | Object(status: Json, nome: Json, simples: Section, simei: Section)

  /** One request: a network-level failure, or an HTTP response with its status code. */
  datatype Attempt = NetworkError | Reply(code: int, payload: Payload)
}
