/**
 * The decision server of Final/maintest.py: one process-wide sleep flag, a
 * wake word that is looked for before the classifier is ever asked, the
 * classifier's object completed with a spoken text, and a local whitelist
 * fallback when the classifier fails. The server answers both on MQTT (the
 * ESP32 publishes text, the server publishes a JSON decision back) and on
 * HTTP (`/package-voice`).
 */
module SleepGateway {
  import opened Base
  import opened Text
  import opened ServerIo
  import Whitelist

  const StatusTopic := "package/status"
  const WakeWord := "hallo"
  const BootReady := "boot_ready"
  const BootSpeech := "Permisi. Smart Package Box aktif dan siap digunakan."
  const DefaultTts := "Respons default"

  /** The answers given before the classifier is asked. */
  const AsleepReply: Decision := map["action" := "sleep", "tts" := "Saya sedang istirahat. Katakan 'hallo' untuk bangun."]
  const WakeReply: Decision := map["action" := "wake", "tts" := "Permisi, ada paket. Dengan siapa saya berbicara?"]

  /** The answers of the failure branch. */
  const FallbackAsleep: Decision := map["action" := "sleep", "tts" := "Saya sedang istirahat."]
  const FallbackWake: Decision := map["action" := "wake", "tts" := "Permisi, ada paket."]
  const FallbackStillAsleep: Decision := map["action" := "sleep", "tts" := "Maaf, sedang istirahat."]
  const DenyReply: Decision := map["action" := "deny", "message" := Whitelist.DenyMessage,
                                   "tts" := "Maaf, nama tersebut tidak terdaftar pada paket ini."]

  function OpenReply(name: string): Decision {
    map["action" := "open", "name" := name, "tts" := "Baik, paket atas nama " + name + ". Silakan diambil."]
  }

  /** `"hallo" in text.lower()` */
  predicate Awake(text: string) {
    Contains(Lower(text), WakeWord)
  }

  predicate HasAction(d: Decision, action: string) {
    "action" in d && d["action"] == action
  }

  /**
   * A classifier object with its `tts` key filled in: an existing one is
   * kept, otherwise the `message` is copied, otherwise a default is used.
   * No other key is touched.
   */
  function WithTts(result: Decision): (r: Decision)
    ensures r.Keys == result.Keys + {"tts"}
    ensures forall k :: k in result && k != "tts" ==> r[k] == result[k]
    ensures "tts" in result ==> r["tts"] == result["tts"]
    ensures "tts" !in result && "message" in result ==> r["tts"] == result["message"]
    ensures "tts" !in result && "message" !in result ==> r["tts"] == DefaultTts
  {
    if "tts" in result then result
    else result["tts" := if "message" in result then result["message"] else DefaultTts]
  }

  /** The failure branch: the decision and the new value of the sleep flag. */
  function Fallback(sleep: bool, text: string): (r: (Decision, bool))
    ensures "tts" in r.0
  {
    var lower := Lower(text);
    if sleep && !Contains(lower, WakeWord) then (FallbackAsleep, sleep)
    else if Contains(lower, WakeWord) then (FallbackWake, false)
    else match Whitelist.FirstMatch(Whitelist.Names, lower)
      case Some(k) => (OpenReply(Capitalize(Whitelist.Names[k])), false)
      case None => if sleep then (FallbackStillAsleep, sleep) else (DenyReply, sleep)
  }

  /**
   * What one call of `extract_name_with_gemini` does: the decision, the new
   * sleep flag, and whether the classifier was asked at all.
   */
  datatype Step = Step(decision: Decision, sleep: bool, consulted: bool)

  function Extract(sleep: bool, text: string, reply: ClassifierReply): (s: Step)
    ensures "tts" in s.decision
  {
    if sleep && !Awake(text) then Step(AsleepReply, sleep, false)
    else if Awake(text) then Step(WakeReply, false, false)
    else match reply
      case Success(result) => Step(WithTts(result), if HasAction(result, "sleep") then true else sleep, true)
      case Failure =>
        var (d, s) := Fallback(sleep, text);
        Step(d, s, true)
  }

  /** While asleep, text without the wake word gets the sleep answer; the classifier's answer plays no part. */
  lemma AsleepIgnoresClassifier(text: string, reply: ClassifierReply, other: ClassifierReply)
    requires !Awake(text)
    ensures Extract(true, text, reply) == Step(AsleepReply, true, false)
    ensures Extract(true, text, reply) == Extract(true, text, other)
  {
  }

  /** The wake word, in any letter case, clears the flag without asking the classifier. */
  lemma WakeWordWakes(sleep: bool, text: string, reply: ClassifierReply)
    requires Awake(text)
    ensures Extract(sleep, text, reply) == Step(WakeReply, false, false)
  {
  }

  /** Filler around the wake word still wakes the server. */
  lemma WakeAmidFiller(pre: string, spoken: string, post: string, sleep: bool, reply: ClassifierReply)
    requires Lower(spoken) == WakeWord
    ensures Extract(sleep, pre + spoken + post, reply).decision == WakeReply
  {
    LowerAppend(pre + spoken, post);
    LowerAppend(pre, spoken);
    ContainsInfix(Lower(pre), WakeWord, Lower(post));
  }

  /**
   * The flag goes from clear to set exactly when the classifier was asked
   * and answered with `action == "sleep"`.
   */
  lemma SleepOnlyBySleepAction(text: string, reply: ClassifierReply)
    ensures Extract(false, text, reply).sleep
            <==> !Awake(text) && reply.Success? && HasAction(reply.fields, "sleep")
  {
    if !Awake(text) && reply.Failure? {
      var lower := Lower(text);
      match Whitelist.FirstMatch(Whitelist.Names, lower)
      case Some(k) =>
      case None =>
    }
  }

  /** After any call the flag is set only if it stayed set or the classifier asked for sleep. */
  lemma SleepFlagSources(sleep: bool, text: string, reply: ClassifierReply)
    ensures Extract(sleep, text, reply).sleep
            ==> (sleep && !Awake(text)) || (reply.Success? && HasAction(reply.fields, "sleep"))
  {
    if !Awake(text) && !sleep && reply.Failure? {
      SleepOnlyBySleepAction(text, reply);
    }
  }

  /**
   * The classifier is asked exactly when the text can reach it: not asleep
   * without the wake word, and no wake word.
   */
  lemma ConsultedIff(sleep: bool, text: string, reply: ClassifierReply)
    ensures Extract(sleep, text, reply).consulted <==> !sleep && !Awake(text)
  {
  }

  /**
   * When the failure branch is reached the flag is clear and the text has
   * no wake word, so its own sleep and wake answers cannot be given: the
   * answer is an open or the denial.
   */
  lemma FallbackGuardsUnreachable(sleep: bool, text: string)
    requires Extract(sleep, text, Failure).consulted
    ensures var d := Extract(sleep, text, Failure).decision;
            d == DenyReply || HasAction(d, "open")
    ensures !Extract(sleep, text, Failure).sleep
  {
    match Whitelist.FirstMatch(Whitelist.Names, Lower(text))
    case Some(k) =>
    case None =>
  }

  /**
   * On classifier failure the first listed name found in the lower-cased
   * text opens, for its capitalised form; with none the answer is the
   * denial. Either way the verdict and the name agree with the plain
   * fallback of the other two servers.
   */
  lemma FallbackOpensFirstListed(text: string, k: nat)
    requires !Awake(text)
    requires k < |Whitelist.Names| && Contains(Lower(text), Whitelist.Names[k])
    requires forall j :: 0 <= j < k ==> !Contains(Lower(text), Whitelist.Names[j])
    ensures Extract(false, text, Failure) == Step(OpenReply(Capitalize(Whitelist.Names[k])), false, true)
    ensures Whitelist.PlainFallback(text)["name"] == Extract(false, text, Failure).decision["name"]
  {
    Whitelist.FirstMatchAt(Whitelist.Names, Lower(text), k);
  }

  lemma FallbackDenies(text: string)
    requires !Awake(text)
    requires forall j :: 0 <= j < |Whitelist.Names| ==> !Contains(Lower(text), Whitelist.Names[j])
    ensures Extract(false, text, Failure) == Step(DenyReply, false, true)
    ensures Whitelist.PlainFallback(text)["action"] == "deny"
  {
  }

  /** The server process: the sleep flag and what it has sent out. */
  class Gateway {
    var sleepMode: bool
    /** Texts handed to the classifier. */
    ghost var asked: seq<string>
    /** Decisions published on the response topic. */
    ghost var published: seq<Decision>
    /** Texts passed to the speech synthesiser. */
    ghost var spoken: seq<string>

    constructor ()
      ensures !sleepMode && asked == [] && published == [] && spoken == []
    {
      sleepMode := false;
      asked := [];
      published := [];
      spoken := [];
    }

    /** The failure branch: the tests in order, then the whitelist search with early return. */
    method ClassifierFailed(text: string) returns (d: Decision)
      modifies this`sleepMode
      ensures (d, sleepMode) == Fallback(old(sleepMode), text)
    {
      var lower := Lower(text);
      if sleepMode && !Contains(lower, WakeWord) {
        return FallbackAsleep;
      }
      if Contains(lower, WakeWord) {
        sleepMode := false;
        return FallbackWake;
      }
      var names := Whitelist.Names;
      for i := 0 to |names|
        invariant forall j :: 0 <= j < i ==> !Contains(lower, names[j])
        invariant sleepMode == old(sleepMode)
      {
        if Contains(lower, names[i]) {
          Whitelist.FirstMatchAt(names, lower, i);
          sleepMode := false;
          return OpenReply(Capitalize(names[i]));
        }
      }
      if sleepMode {
        return FallbackStillAsleep;
      }
      return DenyReply;
    }

    /** `extract_name_with_gemini`: `reply` is what the classifier answers if it is asked. */
    method ExtractName(text: string, reply: ClassifierReply) returns (d: Decision)
      modifies this`sleepMode, this`asked
      ensures var s := Extract(old(sleepMode), text, reply);
              d == s.decision && sleepMode == s.sleep
              && asked == old(asked) + (if s.consulted then [text] else [])
    {
      if sleepMode && !Contains(Lower(text), WakeWord) {
        return AsleepReply;
      }
      if Contains(Lower(text), WakeWord) {
        sleepMode := false;
        return WakeReply;
      }
      asked := asked + [text];
      match reply
      case Failure =>
        d := ClassifierFailed(text);
      case Success(result) =>
        if "action" in result && result["action"] == "sleep" {
          sleepMode := true;
        }
        d := result;
        if "tts" !in d {
          d := d["tts" := if "message" in d then d["message"] else DefaultTts];
        }
    }

    /**
     * `on_mqtt_message`. A payload that does not decode raises before the
     * `try` and the callback ends with nothing done. A status message is
     * only announced, on `boot_ready`. Any other text is classified and its
     * decision published once; the `except` branch that would publish an
     * error cannot be taken, since classification catches every failure.
     */
    method OnMqttMessage(topic: string, payload: Inbound, reply: ClassifierReply)
      modifies this
      ensures payload.Undecodable? || topic == StatusTopic ==>
                sleepMode == old(sleepMode) && asked == old(asked) && published == old(published)
      ensures payload.Undecodable? ==> spoken == old(spoken)
      ensures payload.Utf8? && topic == StatusTopic ==>
                spoken == old(spoken) + (if Strip(payload.text) == BootReady then [BootSpeech] else [])
      ensures payload.Utf8? && topic != StatusTopic ==>
                var s := Extract(old(sleepMode), Strip(payload.text), reply);
                published == old(published) + [s.decision] && sleepMode == s.sleep
                && asked == old(asked) + (if s.consulted then [Strip(payload.text)] else [])
                && spoken == old(spoken)
    {
      if payload.Undecodable? {
        return;
      }
      var text := Strip(payload.text);
      if topic == StatusTopic {
        if text == BootReady {
          spoken := spoken + [BootSpeech];
        }
        return;
      }
      var d := ExtractName(text, reply);
      published := published + [d];
    }

    /**
     * `handle_voice_input`: 400 without a `text` field, 500 when it is not a
     * string, otherwise the decision with status 200, spoken aloud when it
     * has a `tts` key.
     */
    method HandleVoiceInput(req: Request, reply: ClassifierReply) returns (r: Reply)
      modifies this
      ensures ReadText(req).Missing? ==> r == TextRequired
      ensures ReadText(req).Raises? ==> r == ServerError
      ensures !ReadText(req).Text? ==>
                sleepMode == old(sleepMode) && asked == old(asked) && spoken == old(spoken)
      ensures ReadText(req).Text? ==>
                var s := Extract(old(sleepMode), ReadText(req).text, reply);
                r == Reply(200, s.decision) && sleepMode == s.sleep
                && asked == old(asked) + (if s.consulted then [ReadText(req).text] else [])
                && spoken == old(spoken) + [s.decision["tts"]]
      ensures published == old(published)
    {
      var field := ReadText(req);
      match field
      case Missing =>
        return TextRequired;
      case Raises =>
        return ServerError;
      case Text(text) =>
        var d := ExtractName(text, reply);
        if "tts" in d {
          spoken := spoken + [d["tts"]];
        }
        r := Reply(200, d);
    }
  }
}
