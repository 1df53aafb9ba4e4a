/**
 * The relay server of Final/main.py: every text the ESP32 publishes is
 * classified (or, when the classifier fails, matched against the local
 * whitelist) and the decision is published back unchanged; the HTTP route
 * `/package-voice` returns the same decision for a JSON body.
 */
module RelayServer {
  import opened Base
  import opened Text
  import opened ServerIo
  import Whitelist

  const ErrorReply: Decision := map["action" := "error", "message" := "Server error"]

  /**
   * `on_mqtt_message`: decoding happens inside the `try`, so every inbound
   * message is answered by exactly one publish, the error decision when the
   * payload does not decode.
   */
  function OnMqttMessage(payload: Inbound, reply: ClassifierReply): (published: seq<Decision>)
    ensures |published| == 1
    ensures payload.Undecodable? ==> published[0] == ErrorReply
  {
    match payload
    case Undecodable => [ErrorReply]
    case Utf8(text) => [Whitelist.ClassifyOrFallback(Strip(text), reply)]
  }

  /** `handle_voice_input`: the decision for the stripped text, or the 400/500 error replies. */
  function HandleVoiceInput(req: Request, reply: ClassifierReply): (r: Reply)
    ensures r.status == 200 <==> ReadText(req).Text?
    ensures ReadText(req).Missing? ==> r == TextRequired
    ensures ReadText(req).Raises? ==> r == ServerError
  {
    match ReadText(req)
    case Missing => TextRequired
    case Raises => ServerError
    case Text(text) => Reply(200, Whitelist.ClassifyOrFallback(text, reply))
  }

  /** A classifier answer reaches the ESP32 and the HTTP client exactly as it was given. */
  lemma PassThrough(raw: string, reply: ClassifierReply)
    requires reply.Success?
    ensures OnMqttMessage(Utf8(raw), reply) == [reply.fields]
    ensures HandleVoiceInput(JsonObject(map["text" := JString(raw)]), reply) == Reply(200, reply.fields)
  {
  }

  /** Both routes answer the same text with the same decision. */
  lemma RoutesAgree(raw: string, reply: ClassifierReply)
    ensures HandleVoiceInput(JsonObject(map["text" := JString(raw)]), reply).body
            == OnMqttMessage(Utf8(raw), reply)[0]
  {
  }

  /**
   * With the classifier down, a decodable message is never answered with
   * the error decision: it opens for the first listed name found, or denies.
   */
  lemma FallbackNeverErrors(raw: string)
    ensures var d := OnMqttMessage(Utf8(raw), Failure)[0];
            d != ErrorReply && d["action"] in {"open", "deny"}
  {
    assert ErrorReply["action"] == "error";
    match Whitelist.FirstMatch(Whitelist.Names, Lower(Strip(raw)))
    case Some(k) =>
    case None =>
  }

  /** A recipient's name said amid filler words opens the box when the classifier is down. */
  lemma FillerOpensOverHttp(pre: string, k: nat, spoken: string, post: string)
    requires k < |Whitelist.Names| && Lower(spoken) == Whitelist.Names[k]
    ensures var r := HandleVoiceInput(JsonObject(map["text" := JString(pre + spoken + post)]), Failure);
            r.status == 200 && r.body["action"] == "open"
            && r.body["name"] in {"Aisyah", "Rabiathul", "Nadia"}
  {
    var raw := pre + spoken + post;
    ContainsInfix(pre, spoken, post);
    assert LowerChar(spoken[0]) == Whitelist.Names[k][0];
    assert LowerChar(spoken[|spoken| - 1]) == Whitelist.Names[k][|spoken| - 1];
    StripKeeps(raw, spoken);
    ContainsLower(Strip(raw), spoken);
    Whitelist.OpensWhenNamed(Strip(raw), k);
  }
}
