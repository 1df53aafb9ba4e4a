/**
 * The audio server of test/6-1-26/RARE/main.py: the ESP32 posts raw audio,
 * the server transcribes it, decides (with the same sleep flag and wake word
 * as the gateway, but no local fallback), synthesises the spoken answer to
 * `response.wav` and publishes a fixed sequence of JSON commands on
 * `package/command`. When the ESP32 reports `boot_ready` it is greeted.
 */
module AudioServer {
  import opened Base
  import opened Text
  import opened ServerIo

  const StatusTopic := "package/status"
  const WakeWord := "hallo"
  const BootReady := "boot_ready"
  const DefaultTts := "Respons default"
  const ResponseFile := "response.wav"
  const WelcomeFile := "welcome.wav"
  const Greeting := "Halo, perangkat siap digunakan. Silakan berbicara."
  const NoAudio: Reply := Reply(400, map["error" := "No audio"])

  /** The answers given before the classifier is asked. */
  const AsleepCmd: Decision := map["cmd" := "sleep", "tts_text" := "Saya sedang istirahat. Katakan 'hallo'."]
  const ListenCmd: Decision := map["cmd" := "set_status", "state" := "Mendengarkan",
                                   "tts_text" := "Permisi, ada paket. Dengan siapa saya berbicara?"]

  /** A JSON command published to the ESP32; `open_box` carries `decision.get("name")`, which may be null. */
  datatype Command = SetStatus(state: string) | OpenBox(name: Option<string>) | PlayAudio(file: string)

  function Get(d: Decision, key: string): Option<string> {
    if key in d then Some(d[key]) else None
  }

  /** `"hallo" in text.lower()` */
  predicate Awake(text: string) {
    Contains(Lower(text), WakeWord)
  }

  /**
   * One call of `process_voice`: the decision (none when the classifier
   * fails, which raises out of the call), the new sleep flag, and whether
   * the classifier was asked.
   */
  datatype Voice = Voice(decision: Option<Decision>, sleep: bool, consulted: bool)

  function ProcessVoice(sleep: bool, text: string, reply: ClassifierReply): Voice {
    if sleep && !Awake(text) then Voice(Some(AsleepCmd), sleep, false)
    else if Awake(text) then Voice(Some(ListenCmd), false, false)
    else match reply
      case Failure => Voice(None, sleep, true)
      case Success(result) => Voice(Some(result), if Get(result, "action") == Some("sleep") then true else sleep, true)
  }

  /** `decision.get("tts_text", "Respons default")` */
  function TtsText(d: Decision): string {
    if "tts_text" in d then d["tts_text"] else DefaultTts
  }

  /** The commands published for one processed utterance, in order. */
  function Commands(d: Decision): (cs: seq<Command>)
    ensures |cs| == (if Get(d, "cmd") == Some("open_box") then 4 else 3)
    ensures cs[0] == SetStatus("Berpikir") && cs[|cs| - 1] == SetStatus("Menjawab")
    ensures cs[|cs| - 2] == PlayAudio(ResponseFile)
  {
    [SetStatus("Berpikir")]
    + (if Get(d, "cmd") == Some("open_box") then [OpenBox(Get(d, "name"))] else [])
    + [PlayAudio(ResponseFile), SetStatus("Menjawab")]
  }

  /** The 500 reply carrying the text of the exception that ended the request. */
  function Fault(why: string): Reply {
    Reply(500, map["error" := why])
  }

  /** Everything one `/audio_stream` request does. */
  datatype Turn = Turn(reply: Reply, sleep: bool, asked: seq<string>,
                       synthesized: seq<(string, string)>, sent: seq<Command>)

  /**
   * `audio_stream`. `heard` is the transcript (none when conversion or
   * recognition fails), `reply` what the classifier answers if asked,
   * `synthOk` whether speech synthesis succeeds, and `why` the text of
   * whichever exception ends the request.
   */
  function AudioStream(sleep: bool, raw: seq<byte>, heard: Option<string>, reply: ClassifierReply,
                       synthOk: bool, why: string): Turn {
    if raw == [] then Turn(NoAudio, sleep, [], [], [])
    else match heard
      case None => Turn(Fault(why), sleep, [], [], [])
      case Some(text) =>
        var v := ProcessVoice(sleep, text, reply);
        var asked := if v.consulted then [text] else [];
        match v.decision
        case None => Turn(Fault(why), v.sleep, asked, [], [])
        case Some(d) =>
          if !synthOk then Turn(Fault(why), v.sleep, asked, [], [])
          else Turn(Reply(200, map["status" := "processed", "text" := text]), v.sleep, asked,
                    [(TtsText(d), ResponseFile)], Commands(d))
  }

  /** The `boot_ready` handler: what is synthesised and what is published. */
  datatype Greeted = Greeted(synthesized: seq<(string, string)>, sent: seq<Command>)

  function OnMqttMessage(topic: string, payload: Inbound, synthOk: bool): Greeted {
    if payload.Utf8? && topic == StatusTopic && Strip(payload.text) == BootReady then
      if synthOk then Greeted([(Greeting, WelcomeFile)], [SetStatus("Menyapa"), PlayAudio(WelcomeFile)])
      else Greeted([], [SetStatus("Menyapa")])
    else Greeted([], [])
  }

  /** While asleep, text without the wake word gets `cmd: sleep`; the flag stays set and the classifier is not asked. */
  lemma AsleepGate(text: string, reply: ClassifierReply)
    requires !Awake(text)
    ensures ProcessVoice(true, text, reply) == Voice(Some(AsleepCmd), true, false)
  {
  }

  /** The wake word clears the flag and answers `set_status Mendengarkan` without asking the classifier. */
  lemma WakeWordListens(sleep: bool, text: string, reply: ClassifierReply)
    requires Awake(text)
    ensures ProcessVoice(sleep, text, reply) == Voice(Some(ListenCmd), false, false)
  {
  }

  /**
   * The flag is set only by a classifier answer whose `action` (not `cmd`,
   * the key the answers are otherwise asked to use) is `sleep`.
   */
  lemma SleepOnlyBySleepAction(text: string, reply: ClassifierReply)
    ensures ProcessVoice(false, text, reply).sleep
            <==> !Awake(text) && reply.Success? && Get(reply.fields, "action") == Some("sleep")
  {
  }

  /** Without a local fallback, a classifier failure ends the request with 500 and nothing is published. */
  lemma FailureIsServerError(raw: seq<byte>, text: string, synthOk: bool, why: string)
    requires raw != [] && !Awake(text)
    ensures var t := AudioStream(false, raw, Some(text), Failure, synthOk, why);
            t.reply.status == 500 && t.sent == [] && t.synthesized == [] && t.asked == [text] && !t.sleep
  {
  }

  /** An empty body is refused with 400 before anything else happens. */
  lemma EmptyAudioRefused(sleep: bool, heard: Option<string>, reply: ClassifierReply, synthOk: bool, why: string)
    ensures AudioStream(sleep, [], heard, reply, synthOk, why) == Turn(NoAudio, sleep, [], [], [])
  {
  }

  /**
   * A processed utterance: its answer is synthesised once, to
   * `response.wav`, and the commands go out thinking, (open), play, answering.
   */
  lemma ProcessedTurn(sleep: bool, raw: seq<byte>, text: string, reply: ClassifierReply, why: string)
    requires raw != [] && ProcessVoice(sleep, text, reply).decision.Some?
    ensures var d := ProcessVoice(sleep, text, reply).decision.value;
            var t := AudioStream(sleep, raw, Some(text), reply, true, why);
            t.reply == Reply(200, map["status" := "processed", "text" := text])
            && t.synthesized == [(TtsText(d), ResponseFile)]
            && t.sent == Commands(d)
  {
  }

  /** `open_box` is published exactly for a `cmd: open_box` decision, once, in second place. */
  lemma OpenBoxOnlyWhenAsked(d: Decision)
    ensures (exists i :: 0 <= i < |Commands(d)| && Commands(d)[i].OpenBox?) <==> Get(d, "cmd") == Some("open_box")
    ensures Get(d, "cmd") == Some("open_box") ==> Commands(d)[1] == OpenBox(Get(d, "name"))
  {
    var cs := Commands(d);
    if Get(d, "cmd") != Some("open_box") {
      assert cs == [SetStatus("Berpikir"), PlayAudio(ResponseFile), SetStatus("Menjawab")];
      forall i | 0 <= i < |cs|
        ensures !cs[i].OpenBox?
      {
      }
    } else {
      assert cs[1].OpenBox?;
    }
  }

  /** Even asleep the server goes through thinking, play and answering; it never opens the box. */
  lemma AsleepStillAnswers(raw: seq<byte>, text: string, reply: ClassifierReply, why: string)
    requires raw != [] && !Awake(text)
    ensures AudioStream(true, raw, Some(text), reply, true, why).sent
            == [SetStatus("Berpikir"), PlayAudio(ResponseFile), SetStatus("Menjawab")]
    ensures AudioStream(true, raw, Some(text), reply, true, why).synthesized
            == [("Saya sedang istirahat. Katakan 'hallo'.", ResponseFile)]
  {
  }

  /** A missing `tts_text` is spoken as the default text. */
  lemma TtsDefault(d: Decision)
    requires "tts_text" !in d
    ensures TtsText(d) == DefaultTts
  {
  }

  /** `boot_ready` on the status topic is greeted with `Menyapa` and then `welcome.wav`; anything else gets nothing. */
  lemma BootGreets(topic: string, payload: Inbound, synthOk: bool)
    ensures payload.Utf8? && topic == StatusTopic && Strip(payload.text) == BootReady && synthOk ==>
              OnMqttMessage(topic, payload, synthOk).sent == [SetStatus("Menyapa"), PlayAudio(WelcomeFile)]
    ensures !(payload.Utf8? && topic == StatusTopic && Strip(payload.text) == BootReady) ==>
              OnMqttMessage(topic, payload, synthOk) == Greeted([], [])
    ensures OnMqttMessage(topic, payload, synthOk).sent != [] ==>
              OnMqttMessage(topic, payload, synthOk).sent[0] == SetStatus("Menyapa")
  {
  }

  /** The server process: the sleep flag and what it has done. */
  class Server {
    var sleepMode: bool
    /** Texts handed to the classifier. */
    ghost var asked: seq<string>
    /** (text, file) pairs synthesised to audio files. */
    ghost var synthesized: seq<(string, string)>
    /** Commands published on `package/command`. */
    ghost var sent: seq<Command>

    constructor ()
      ensures !sleepMode && asked == [] && synthesized == [] && sent == []
    {
      sleepMode := false;
      asked := [];
      synthesized := [];
      sent := [];
    }

    /** `process_voice`; `None` stands for the exception a classifier failure raises. */
    method ProcessVoiceCall(text: string, reply: ClassifierReply) returns (d: Option<Decision>)
      modifies this`sleepMode, this`asked
      ensures var v := ProcessVoice(old(sleepMode), text, reply);
              d == v.decision && sleepMode == v.sleep
              && asked == old(asked) + (if v.consulted then [text] else [])
    {
      if sleepMode && !Contains(Lower(text), WakeWord) {
        return Some(AsleepCmd);
      }
      if Contains(Lower(text), WakeWord) {
        sleepMode := false;
        return Some(ListenCmd);
      }
      asked := asked + [text];
      match reply
      case Failure =>
        return None;
      case Success(result) =>
        if "action" in result && result["action"] == "sleep" {
          sleepMode := true;
        }
        return Some(result);
    }

    method Send(c: Command)
      modifies this`sent
      ensures sent == old(sent) + [c]
    {
      sent := sent + [c];
    }

    /** The four publishes at the end of `audio_stream`. */
    method SendCommands(d: Decision)
      modifies this`sent
      ensures sent == old(sent) + Commands(d)
    {
      Send(SetStatus("Berpikir"));
      if "cmd" in d && d["cmd"] == "open_box" {
        Send(OpenBox(if "name" in d then Some(d["name"]) else None));
      }
      Send(PlayAudio(ResponseFile));
      Send(SetStatus("Menjawab"));
    }

    /** `audio_stream`, with the foreign steps' outcomes as parameters. */
    method HandleAudio(raw: seq<byte>, heard: Option<string>, reply: ClassifierReply, synthOk: bool, why: string)
      returns (r: Reply)
      modifies this
      ensures var t := AudioStream(old(sleepMode), raw, heard, reply, synthOk, why);
              r == t.reply && sleepMode == t.sleep && asked == old(asked) + t.asked
              && synthesized == old(synthesized) + t.synthesized && sent == old(sent) + t.sent
    {
      if raw == [] {
        return NoAudio;
      }
      if heard.None? {
        return Fault(why);
      }
      var text := heard.value;
      ghost var v := ProcessVoice(sleepMode, text, reply);
      ghost var t := AudioStream(sleepMode, raw, heard, reply, synthOk, why);
      ghost var asked0 := if v.consulted then [text] else [];
      var decision := ProcessVoiceCall(text, reply);
      assert decision == v.decision && sleepMode == v.sleep;
      if decision.None? {
        assert t == Turn(Fault(why), v.sleep, asked0, [], []);
        return Fault(why);
      }
      var d := decision.value;
      var ttsText := if "tts_text" in d then d["tts_text"] else DefaultTts;
      if !synthOk {
        assert t == Turn(Fault(why), v.sleep, asked0, [], []);
        return Fault(why);
      }
      assert t == Turn(Reply(200, map["status" := "processed", "text" := text]), v.sleep, asked0,
                       [(TtsText(d), ResponseFile)], Commands(d));
      synthesized := synthesized + [(ttsText, ResponseFile)];
      SendCommands(d);
      r := Reply(200, map["status" := "processed", "text" := text]);
    }

    /** `on_mqtt_message`: the greeting for `boot_ready`; a failed synthesis stops after the first command. */
    method HandleStatus(topic: string, payload: Inbound, synthOk: bool)
      modifies this`synthesized, this`sent
      ensures var g := OnMqttMessage(topic, payload, synthOk);
              synthesized == old(synthesized) + g.synthesized && sent == old(sent) + g.sent
    {
      if payload.Undecodable? {
        return;
      }
      if topic == StatusTopic && Strip(payload.text) == BootReady {
        Send(SetStatus("Menyapa"));
        if !synthOk {
          return;
        }
        synthesized := synthesized + [(Greeting, WelcomeFile)];
        Send(PlayAudio(WelcomeFile));
      }
    }
  }
}
