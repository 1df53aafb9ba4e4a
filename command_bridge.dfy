/**
 * The bridge server of python/app.py: the decision for an utterance is
 * turned into the wire command the lock firmware understands (`name:<name>`,
 * `invalid_name`, `ask_name`), published on `package/chat`, and answered
 * over HTTP with what the speaker should say. Confirmations the firmware
 * publishes back are kept in the MQTT client's user data.
 */
module CommandBridge {
  import opened Base
  import opened Text
  import opened ServerIo
  import Whitelist
  import VoiceLock

  const UnknownAction: Reply := Reply(500, map["error" := "Unknown action"])
  const DefaultDenial := "Maaf, nama tidak terdaftar. Paket tidak bisa diambil."
  const ConfirmKey := "last_confirm"

  /** The HTTP reply and the command published to the firmware, if any. */
  datatype Outcome = Outcome(reply: Reply, command: Option<string>)

  /** `decision.get(key)` */
  function Get(d: Decision, key: string): Option<string> {
    if key in d then Some(d[key]) else None
  }

  function OpenSpeech(name: string): string {
    "Selamat! Paket untuk " + name + ". Kotak akan terbuka sekarang."
  }

  /**
   * The branching of `handle_voice_input` on the decision's `action`. An
   * `open` without a `name` fails at `name.lower()`, before anything is
   * published, and the handler answers 500.
   */
  function Dispatch(d: Decision): (o: Outcome)
    ensures o.command.Some? <==> o.reply.status == 200
    ensures o.reply.status in {200, 500}
  {
    var action := Get(d, "action");
    var message := if "message" in d then d["message"] else "";
    if action == Some("open") then
      match Get(d, "name")
      case None => Outcome(ServerError, None)
      case Some(name) =>
        Outcome(Reply(200, map["status" := "success", "action" := "open", "name" := name, "speak" := OpenSpeech(name)]),
                Some("name:" + Lower(name)))
    else if action == Some("deny") then
      Outcome(Reply(200, map["status" := "success", "action" := "deny",
                             "speak" := if message != "" then message else DefaultDenial]),
              Some("invalid_name"))
    else if action == Some("ask_name") then
      Outcome(Reply(200, map["status" := "success", "action" := "ask_name", "speak" := message]), Some("ask_name"))
    else Outcome(UnknownAction, None)
  }

  /** `handle_voice_input`: validation, then the fallback-backed decision, then its dispatch. */
  function HandleVoiceInput(req: Request, reply: ClassifierReply): (o: Outcome)
    ensures !ReadText(req).Text? ==> o.command == None
    ensures ReadText(req).Missing? ==> o.reply == TextRequired
    ensures ReadText(req).Raises? ==> o.reply == ServerError
  {
    match ReadText(req)
    case Missing => Outcome(TextRequired, None)
    case Raises => Outcome(ServerError, None)
    case Text(text) => Dispatch(Whitelist.ClassifyOrFallback(text, reply))
  }

  /** The firmware's vocabulary: everything published is one of the three command forms. */
  predicate WireCommand(c: string) {
    c == "invalid_name" || c == "ask_name" || StartsWith(c, "name:")
  }

  lemma CommandsAreWire(d: Decision)
    ensures Dispatch(d).command.Some? ==> WireCommand(Dispatch(d).command.value)
  {
    var o := Dispatch(d);
    if o.command.Some? && Get(d, "action") == Some("open") {
      assert StartsWith(o.command.value, "name:");
    }
  }

  /** An `open` with a name publishes `name:` and the lower-cased name, and answers with the name as given. */
  lemma OpenPublishesName(d: Decision)
    requires Get(d, "action") == Some("open") && "name" in d
    ensures Dispatch(d).command == Some("name:" + Lower(d["name"]))
    ensures Dispatch(d).reply.status == 200
    ensures Dispatch(d).reply.body["action"] == "open" && Dispatch(d).reply.body["name"] == d["name"]
    ensures Dispatch(d).reply.body["speak"] == OpenSpeech(d["name"])
  {
  }

  /** An `open` without a name is a server error and nothing is published. */
  lemma OpenWithoutName(d: Decision)
    requires Get(d, "action") == Some("open") && "name" !in d
    ensures Dispatch(d) == Outcome(ServerError, None)
  {
  }

  /** A denial publishes `invalid_name` and says the message, or the default text when it is empty or absent. */
  lemma DenySpeaks(d: Decision)
    requires Get(d, "action") == Some("deny")
    ensures Dispatch(d).command == Some("invalid_name")
    ensures "message" in d && d["message"] != "" ==> Dispatch(d).reply.body["speak"] == d["message"]
    ensures !("message" in d && d["message"] != "") ==> Dispatch(d).reply.body["speak"] == DefaultDenial
  {
  }

  /** `ask_name` is forwarded and its message, possibly empty, is echoed. */
  lemma AskNameEchoes(d: Decision)
    requires Get(d, "action") == Some("ask_name")
    ensures Dispatch(d).command == Some("ask_name")
    ensures Dispatch(d).reply.body["speak"] == (if "message" in d then d["message"] else "")
  {
  }

  /** Any other action, or none, is answered 500 and nothing is published. */
  lemma OtherActionsRefused(d: Decision)
    requires Get(d, "action") !in {Some("open"), Some("deny"), Some("ask_name")}
    ensures Dispatch(d) == Outcome(UnknownAction, None)
  {
  }

  /** The bridge does not check a classifier's `open` against the whitelist: any name is forwarded. */
  lemma NoRecheck(name: string, raw: string)
    ensures HandleVoiceInput(JsonObject(map["text" := JString(raw)]),
                             Success(map["action" := "open", "name" := name])).command
            == Some("name:" + Lower(name))
  {
  }

  /** With the classifier down, the first registered name found in the text is published as `name:` plus that name. */
  lemma FallbackCommand(raw: string, k: nat)
    requires k < |Whitelist.Names| && Contains(Lower(Strip(raw)), Whitelist.Names[k])
    requires forall j :: 0 <= j < k ==> !Contains(Lower(Strip(raw)), Whitelist.Names[j])
    ensures HandleVoiceInput(JsonObject(map["text" := JString(raw)]), Failure).command
            == Some("name:" + Whitelist.Names[k])
  {
    var text := Strip(raw);
    var req := JsonObject(map["text" := JString(raw)]);
    assert ReadText(req) == Text(text);
    assert HandleVoiceInput(req, Failure) == Dispatch(Whitelist.PlainFallback(text));
    var name := Whitelist.Names[k];
    Whitelist.FirstMatchAt(Whitelist.Names, Lower(text), k);
    assert Whitelist.PlainFallback(text) == map["action" := "open", "name" := Capitalize(name)];
    DispatchNamed(Capitalize(name));
    Whitelist.NameRoundTrip(k);
  }

  lemma DispatchNamed(name: string)
    ensures Dispatch(map["action" := "open", "name" := name]).command == Some("name:" + Lower(name))
  {
    OpenPublishesName(map["action" := "open", "name" := name]);
  }

  /** End to end: the voice firmware opens its servo on the command the fallback publishes. */
  lemma FallbackOpensVoiceBox(raw: string, k: nat, s: VoiceLock.VoiceState, now: nat)
    requires k < |Whitelist.Names| && Contains(Lower(Strip(raw)), Whitelist.Names[k])
    requires forall j :: 0 <= j < k ==> !Contains(Lower(Strip(raw)), Whitelist.Names[j])
    ensures var o := HandleVoiceInput(JsonObject(map["text" := JString(raw)]), Failure);
            o.command.Some?
            && VoiceLock.Receive(s, o.command.value, now).effects == [VoiceLock.ServoTo(VoiceLock.OpenAngle)]
  {
    FallbackCommand(raw, k);
    VoiceLock.ListedNamesOpen(s, k, now);
  }

  /** `mqtt_client.user_data_set({'last_confirm': None})` and the confirmation handler that writes it. */
  class UserData {
    var fields: map<string, Option<string>>

    constructor ()
      ensures fields == map[ConfirmKey := None]
    {
      fields := map[ConfirmKey := None];
    }

    /**
     * `on_mqtt_message`: the decoded payload, not stripped, becomes the last
     * confirmation; a payload that does not decode raises and nothing is stored.
     */
    method OnMqttMessage(payload: Inbound)
      modifies this
      ensures payload.Utf8? ==> fields == old(fields)[ConfirmKey := Some(payload.text)]
      ensures payload.Undecodable? ==> fields == old(fields)
    {
      if payload.Utf8? {
        fields := fields[ConfirmKey := Some(payload.text)];
      }
    }
  }
}
