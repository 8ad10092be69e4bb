/**
 * What the API routes share: the JSON responses and their error bodies, and,
 * for the two LLM routes, the model call's outcome, the JSON parse of its
 * reply, and the messages of the errors that reach a response's `details`.
 *
 * The model call and `JSON.parse` are oracles. Engine error messages are
 * those of the V8 engine the server runs on.
 */
module LlmReply {
  import opened JsString
  import opened Json

  /**
   * The model call: a reply whose first content block is text (with the token
   * counts the service reports), a reply whose first block is something else,
   * or a call that throws. A reply with no content block at all throws when
   * the route reads the first block's `type`; it is the `CallFailed` whose
   * message is V8's `Cannot read properties of undefined (reading 'type')`.
   */
  datatype Reply = TextReply(text: string, inputTokens: nat, outputTokens: nat) | OtherBlock | CallFailed(message: string)

  /** `JSON.parse`: a value, or a `SyntaxError` with its message. */
  datatype Parsed = Parsed(value: Json) | SyntaxError(message: string)

  /** A JSON response: its status and its body object. */
  datatype Response = Response(status: nat, body: JsonObject)

  const ApiKeyMessage: string := "ANTHROPIC_API_KEY not configured"

  /** `{ error }` with the given status. */
  function ErrorResponse(status: nat, error: string): (r: Response)
    ensures r.status == status && r.body.Keys == {"error"} && r.body["error"] == JStr(error)
  {
    Response(status, map["error" := JStr(error)])
  }

  /** The `catch` block's 500: `{ success: false, error, details }`. */
  function Failure(error: string, details: string): (r: Response)
    ensures r.status == 500 && r.body.Keys == {"success", "error", "details"}
    ensures r.body["success"] == JBool(false) && r.body["error"] == JStr(error) && r.body["details"] == JStr(details)
  {
    Response(500, map["success" := JBool(false), "error" := JStr(error), "details" := JStr(details)])
  }

  /** V8's message for reading a property of `null`. */
  function NullRead(key: string): string {
    "Cannot read properties of null (reading '" + key + "')"
  }

  /** `{...r}` for the outcome of a property read: nothing when it is `undefined`. */
  function SpreadRead(r: Read): (m: JsonObject)
    requires !r.Throws?
    ensures r.Value? ==> m == Spread(r.v)
    ensures r.Undefined? ==> m == map[]
  {
    if r.Value? then Spread(r.v) else map[]
  }
}
