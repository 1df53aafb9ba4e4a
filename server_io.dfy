/**
 * What the three Flask/paho decision servers exchange with the outside world,
 * reduced to values: the classifier's answer, an inbound MQTT payload, the
 * JSON body of an HTTP request and the HTTP reply.
 */
module ServerIo {
  import opened Base
  import opened Text

  /** A JSON object whose values are strings, as the servers build and forward them. */
  type Decision = map<string, string>

  /**
   * The external classifier: either it fails (network error, text that is not
   * JSON, JSON that is not an object) or it yields a parsed JSON object.
   */
  datatype ClassifierReply = Failure | Success(fields: Decision)

  /** An MQTT payload as `msg.payload.decode()` sees it. */
  datatype Inbound = Utf8(text: string) | Undecodable

  /** A value inside a JSON body; only strings are told apart from the rest. */
  datatype JsonValue = JString(s: string) | JOther

  /**
   * What `request.get_json()` hands the handler: `None` (a `null` body), an
   * exception (a body Flask cannot parse, raised inside the handler's `try`),
   * or the parsed body: an object, an array, a string, or another scalar (a
   * number or a boolean), of which only the truth value matters here.
   */
  datatype Request =
    | NoJson
    | Unparsable
    | JsonObject(fields: map<string, JsonValue>)
    | JsonArray(items: seq<JsonValue>)
    | JsonString(s: string)
    | JsonScalar(truthy: bool)

  /** A JSON reply with its HTTP status code. */
  datatype Reply = Reply(status: nat, body: Decision)

  /**
   * The outcome of `if not data or 'text' not in data` and
   * `data['text'].strip()`: the text is missing (400), reading it raises
   * (500), or the stripped text.
   */
  datatype TextField = Missing | Raises | Text(text: string)

  const TextRequired: Reply := Reply(400, map["error" := "Text input required"])
  const ServerError: Reply := Reply(500, map["error" := "Server error"])

  /**
   * `not data` holds for `None`, `{}`, `[]`, `""`, `0` and `false`; `'text' in
   * data` tests the keys of an object, the elements of an array and the
   * substrings of a string, and raises `TypeError` for a number or a boolean.
   * `data['text']` raises for an array or a string, and `.strip()` raises for
   * a value that is not a string.
   */
  function ReadText(req: Request): (t: TextField)
    ensures t.Text? <==> req.JsonObject? && "text" in req.fields && req.fields["text"].JString?
    ensures t.Text? ==> t.text == Strip(req.fields["text"].s)
    ensures req.NoJson? ==> t == Missing
    ensures req.Unparsable? ==> t == Raises
    ensures req.JsonObject? ==> (t == Missing <==> "text" !in req.fields)
    ensures req.JsonArray? ==> (t == Missing <==> JString("text") !in req.items) && !t.Text?
    ensures req.JsonString? ==> (t == Missing <==> !Contains(req.s, "text")) && !t.Text?
    ensures req.JsonScalar? ==> (t == Missing <==> !req.truthy) && !t.Text?
  {
    match req
    case NoJson => Missing
    case Unparsable => Raises
    case JsonObject(fields) =>
      if fields == map[] || "text" !in fields then Missing
      else (match fields["text"]
        case JString(s) => Text(Strip(s))
        case JOther => Raises)
    case JsonArray(items) =>
      if items == [] || JString("text") !in items then Missing else Raises
    case JsonString(s) =>
      if s == "" || !Contains(s, "text") then Missing else Raises
    case JsonScalar(truthy) =>
      if !truthy then Missing else Raises
  }

  /** Bodies that are JSON but not objects: falsy ones and ones without `text` are 400, the rest raise. */
  lemma NonObjectBodies()
    ensures ReadText(JsonString("context")) == Raises
    ensures ReadText(JsonString("paket")) == Missing
    ensures ReadText(JsonArray([JString("text")])) == Raises
    ensures ReadText(JsonArray([])) == Missing
    ensures ReadText(JsonScalar(true)) == Raises && ReadText(JsonScalar(false)) == Missing
  {
    ContextHoldsText();
    PaketLacksText();
  }

  lemma ContextHoldsText()
    ensures Contains("context", "text")
  {
    ContainsAt("context", "text", 3);
  }

  lemma PaketLacksText()
    ensures !Contains("paket", "text")
  {
    MissingCharNotContained("paket", "text", 2);
  }
}
