/** What a handler writes back: a status, the Content-Type header if one
    is set, and the body. */
module Http {
  import opened Js

  datatype Body =
    | JsonBody(payload: Json)   // `JSON.stringify(payload)`
    | TextBody(text: string)
    | FileBody(bytes: seq<bv8>)

  datatype Response = Response(status: int, contentType: Option<string>, body: Body)

  const JsonType := "application/json"

  /** `sendJson(res, status, payload)`. */
  function SendJson(status: int, payload: Json): Response {
    Response(status, Some(JsonType), JsonBody(payload))
  }

  /** `sendJson(res, status, { error: message })`. */
  function SendError(status: int, message: string): Response {
    SendJson(status, Obj(map["error" := Str(message)]))
  }
}
