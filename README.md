# Smart Package Box: the lock and session decision core, in Dafny

Smart Package Box is a parcel box with a voice front end. A courier speaks
to the box. A laptop server decides from the utterance whether the spoken
name is a registered recipient. It then tells an ESP32 over MQTT to open the
lock, to refuse, or to ask again. The ESP32 drives a servo, shows short
messages on an OLED screen and reports back.

This project models the parts of the system that make decisions. It proves
what those parts promise. The hardware, the network, speech recognition,
speech synthesis and the language-model classifier are inputs or ghost logs.

| module | models | form |
|---|---|---|
| `GeminiLock` | test/gemini/wokwi/main.py, the guarded lock firmware | class `Controller` over a value state `LockState`, with spec functions `Apply`/`Receive`/`Tick`/`Show` and a ghost event log |
| `VoiceLock` | test/voice/wokwi/main.py, the older firmware with a whitelist, OLED word wrap and broker retry | class `Firmware` over `VoiceState`, with spec functions and a ghost event log |
| `MqttSimple` | test/wokwi/simple.py, the MicroPython MQTT client's framing and packet ids | an in-place array reversal, a packing method and class `Client` |
| `SleepGateway` | Final/maintest.py, the MQTT gateway with sleep mode and wake word | class `Gateway` over the spec function `Extract` |
| `RelayServer` | Final/main.py, the stateless relay with a whitelist fallback | pure functions |
| `CommandBridge` | python/app.py, which turns a decision into a firmware command | pure dispatch plus class `UserData` |
| `AudioServer` | test/6-1-26/RARE/main.py, the audio server and its ordered command stream | class `Server` over the spec functions `ProcessVoice`/`AudioStream` |
| `Whitelist` | the local fallback shared by the three text servers | pure functions |
| `ServerIo`, `Text`, `Base` | request validation, ASCII string helpers, bytes and `Option`/`Result` | pure functions |

The classifier is an input: `Failure`, or `Success` of a string-to-string
map. Requests and MQTT payloads are datatypes that keep only the cases the
handlers tell apart. MicroPython's `ticks_ms()` is a plain number of
milliseconds. The servo moves, publishes, screen contents, pauses and
connection attempts of the firmware become ghost `seq<Event>` logs. The same
goes for the classifier calls, speech and published commands of the
servers. Each class method ensures that its new fields and its log are
what a spec function of the old state gives. The source's promises are
lemmas about those spec functions.

Where the code and its surrounding description disagree, the model follows
the code. Four such points:
- The MQTT client writes the Remaining Length digits most significant
  first, where MQTT 3.1.1 (section 2.2.3) puts the least significant first.
- In Final/maintest.py, the sleep and wake branches inside the exception
  handler cannot be reached.
- The audio server sets its sleep flag from the classifier's `action` key,
  not from `cmd`.
- The bridge of python/app.py forwards any name the classifier returns.
  It does not check the name against the whitelist.

## Model

| member | source | states |
|---|---|---|
| `GeminiLock.CapitalizeName` | test/gemini/wokwi/main.py:120-123 | the firmware's manual capitalisation agrees with the reference `Capitalize` (first letter upper, rest lower, empty name unchanged) |
| `GeminiLock.InvariantKept` | test/gemini/wokwi/main.py:103-215 | a pending auto-close implies an open box; this holds initially and is preserved by every command, by the timeout block and by the display block |
| `GeminiLock.OpenWhileOpenIgnored` | test/gemini/wokwi/main.py:115-118 | a `name:` command while the box is open changes nothing and has no effect |
| `GeminiLock.OpenWhileClosed` | test/gemini/wokwi/main.py:115-134 | a `name:` command on a closed box opens it, sets the deadline to now+15000 and the greeting; the servo opens first and exactly once, `opened` is published exactly once when connected and never otherwise, and the servo is not closed |
| `GeminiLock.CloseBehaviour` | test/gemini/wokwi/main.py:136-149 | `close_box` on a closed box is a no-op; on an open box it closes the servo, clears the flag and the deadline, sets the thanks message and publishes `closed` only when connected |
| `GeminiLock.CloseBoxParses` | test/gemini/wokwi/main.py:109-136 | the text `close_box` takes the close branch |
| `GeminiLock.AutoCloseOnce` | test/gemini/wokwi/main.py:205-215 | the timeout block acts if and only if the box is open, a deadline is set and has passed; it then closes and publishes `closed` when connected, and a second timeout check does nothing |
| `GeminiLock.DuplicateOpen` | test/gemini/wokwi/main.py:115-134 | two `name:` commands with no close between them, with the display block in between, give one servo open and at most one `opened` publish; the second command has no effect |
| `GeminiLock.NonLockCommands` | test/gemini/wokwi/main.py:112-152 | `ask_name`, `invalid_name` and unrecognised commands have no effect and leave the lock state and the connection flag unchanged |
| `GeminiLock.AskNameWins` | test/gemini/wokwi/main.py:112-115 | a command that contains `ask_name` asks for the name even when it starts with `name:` |
| `GeminiLock.NameCommand` | test/gemini/wokwi/main.py:109-123 | `name:` followed by a lower-case name takes the name branch with the capitalised name |
| `GeminiLock.ParseNormalized` | test/gemini/wokwi/main.py:109 | stripping and lower-casing a command that is already normalised does not change which branch it takes |
| `GeminiLock.ParseNameBranch` | test/gemini/wokwi/main.py:115-123 | a normalised `name:` command without `ask_name` yields the stripped, capitalised rest |
| `GeminiLock.NormalizeNameCommand` | test/gemini/wokwi/main.py:109 | a lower-case `name:` command with no trailing space is left unchanged by normalisation |
| `GeminiLock.NoAskNameAfterPrefix` | test/gemini/wokwi/main.py:112-115 | prefixing `name:` to a text without `ask_name` cannot create an `ask_name` |
| `GeminiLock.EmptyNameOpens` | test/gemini/wokwi/main.py:120-129 | the firmware does no whitelist check: `name:` with an empty name opens a closed box |
| `GeminiLock.Controller.constructor` | test/gemini/wokwi/main.py:101-176 | the lock starts closed, with no deadline and no message, after one servo close |
| `GeminiLock.Controller.SendStatus` | test/gemini/wokwi/main.py:132-133 | a status report is logged only while connected |
| `GeminiLock.Controller.MqttCallback` | test/gemini/wokwi/main.py:107-152 | the new globals and the effects are those of `Receive` on the old globals; the invariant is kept |
| `GeminiLock.Controller.Handle` | test/gemini/wokwi/main.py:112-152 | each branch updates the globals and logs the effects as `Apply` says, in order |
| `GeminiLock.Controller.AutoClose` | test/gemini/wokwi/main.py:205-215 | the timeout block updates the globals and the log as `Tick` says, unless its `closed` publish raises; then the program ends after the servo close, with the box flag cleared and the deadline and message untouched (`TickRaising`) |
| `GeminiLock.RaisingTimeoutBreaksInv` | test/gemini/wokwi/main.py:205-213 | a `closed` publish that raises leaves a deadline set on a closed box, with only the servo close logged and the message unchanged |
| `GeminiLock.Controller.ShowMessage` | test/gemini/wokwi/main.py:218-226 | the display block draws at most the first three lines of a pending message and clears it, as `Show` says |
| `GeminiLock.Controller.SetConnected` | test/gemini/wokwi/main.py:161 | the connection flag is set and the invariant is kept |
| `VoiceLock.ServoEffect` | test/voice/wokwi/main.py:31-35 | the servo moves if and only if the angle is within 0..180, and only to that angle |
| `VoiceLock.LastServoAppend` | test/voice/wokwi/main.py:31-35 | the last servo position after two stretches of effects is the later stretch's, if it moved the servo |
| `VoiceLock.DrawLinesAt` | test/voice/wokwi/main.py:115 | each finished line is its words joined by spaces and stripped |
| `VoiceLock.Visible` | test/voice/wokwi/main.py:120 | the drawn lines are a prefix of the wrapped lines, of length three or all of them if fewer |
| `VoiceLock.BrokerRun` | test/voice/wokwi/main.py:156-165 | the attempts at one broker start at the given attempt number |
| `VoiceLock.SetupUpAny` | test/voice/wokwi/main.py:174-180 | start-up ends connected if and only if some broker connects within its three attempts after every earlier broker failed three times with `OSError` |
| `VoiceLock.SetupRaisesAny` | test/voice/wokwi/main.py:174-180 | an exception escapes start-up if and only if some broker's attempt raises one other than `OSError` after every earlier broker failed three times with `OSError` |
| `VoiceLock.UpExcludesRaise` | test/voice/wokwi/main.py:156-172 | `connect_to_broker` never both returns `True` and lets an exception out |
| `VoiceLock.UpConnects` | test/voice/wokwi/main.py:156-165 | a broker that connects leaves the connection flag set |
| `VoiceLock.SetupFlagIsUp` | test/voice/wokwi/main.py:174-180 | when no exception escapes, set-up leaves the connection flag set if and only if it connected: set by a connection, cleared once every broker failed |
| `VoiceLock.BrokerTraceIsRun` | test/voice/wokwi/main.py:156-172 | the retry loop's log agrees with the attempt list `BrokerRun`; it connects exactly when that list's last attempt connected and raises exactly when its last attempt raised |
| `VoiceLock.SetupTraceIsRun` | test/voice/wokwi/main.py:174-180 | the broker loop's log agrees with the attempt list `SetupRun`; it connects exactly when that list's last attempt connected and raises exactly when its last attempt raised |
| `VoiceLock.TraceHasNoServo` | test/voice/wokwi/main.py:154-172 | connecting never moves the servo |
| `VoiceLock.SetupHasNoServo` | test/voice/wokwi/main.py:174-180 | start-up connecting never moves the servo |
| `VoiceLock.ClosedAfter` | test/voice/wokwi/main.py:185 | after the start-up close the last servo position is closed and every angle logged is in range |
| `VoiceLock.BootLog` | test/voice/wokwi/main.py:182-185 | after broker set-up and the start-up close the servo is closed and every logged angle is in range |
| `VoiceLock.NameOpensOnlyWhenListed` | test/voice/wokwi/main.py:134-144 | a name moves the servo if and only if it is registered; then the servo opens and the deadline is now+2000; otherwise the deadline is unchanged and the denial is shown |
| `VoiceLock.RepeatedNameReopens` | test/voice/wokwi/main.py:136-140 | there is no open-state guard: a registered name while open opens again and moves the deadline forward |
| `VoiceLock.NonNameCommands` | test/voice/wokwi/main.py:131-133 | a trigger shows the question, any other text becomes the message, and neither moves the servo or changes the deadline |
| `VoiceLock.TriggerWins` | test/voice/wokwi/main.py:131-134 | a command containing `trigger_detected` in any letter case asks for the name, whatever surrounds it, even a `name:` |
| `VoiceLock.TriggerFound` | test/voice/wokwi/main.py:128-131 | lower-casing the command keeps the `trigger_detected` substring |
| `VoiceLock.NameCommandParses` | test/voice/wokwi/main.py:128-135 | `name:` followed by a lower-case name of any length without colons, surrounding spaces or `trigger_detected` yields exactly that name |
| `VoiceLock.NameField` | test/voice/wokwi/main.py:135 | splitting `name:`+name on `name:` gives that name as the second field |
| `VoiceLock.ListedNamesOpen` | test/voice/wokwi/main.py:61-140 | each of `aisyah`, `rabiathul` and `nadia` after `name:` opens the servo |
| `VoiceLock.AutoCloseOnce` | test/voice/wokwi/main.py:218-221 | auto-close acts if and only if a deadline is set and has passed; it closes the servo, clears the deadline and then does nothing more; otherwise nothing changes |
| `VoiceLock.CommandServo` | test/voice/wokwi/main.py:126-146 | every command keeps the servo where the deadline says it is (open while a close is pending) |
| `VoiceLock.TickServo` | test/voice/wokwi/main.py:218-221 | auto-close keeps the servo where the deadline says it is |
| `VoiceLock.ValidStep` | test/voice/wokwi/main.py:126-221 | a step that keeps the servo agreement extends a valid log to a valid log |
| `VoiceLock.ShowServo` | test/voice/wokwi/main.py:223-240 | the display block never moves the servo |
| `VoiceLock.DurationBounds` | test/voice/wokwi/main.py:225 | the display time is at least 3 s, exactly 3 s under 40 characters, and len/20+2 s otherwise |
| `VoiceLock.ShowOnce` | test/voice/wokwi/main.py:223-240 | a pending message is drawn once, on at most three lines, for at least 3 s; the acknowledgement is published only when connected; the message is cleared |
| `VoiceLock.GroupStep` | test/voice/wokwi/main.py:110-116 | one more word joins the current line exactly when line+word+space stays under 21 characters, and otherwise starts a new line |
| `VoiceLock.GroupKeepsOrder` | test/voice/wokwi/main.py:107-116 | the lines hold all the words, in their original order |
| `VoiceLock.GroupFits` | test/voice/wokwi/main.py:110-116 | every line is under 21 characters with its trailing space unless it is a single word; there is a current line exactly when there are words |
| `VoiceLock.GroupGreedy` | test/voice/wokwi/main.py:110-116 | a line is closed only when the next word would not have fit on it |
| `VoiceLock.LayoutLines` | test/voice/wokwi/main.py:115-118 | the finished lines are stripped, 20 characters at most unless one long word; the last line is cut to 20 characters plus `...` when longer |
| `VoiceLock.WrapLines` | test/voice/wokwi/main.py:107-118 | the same bounds for the lines built from a message's words |
| `VoiceLock.LongFirstWordLeavesBlankLine` | test/voice/wokwi/main.py:110-116 | a first word of 20 characters or more closes the empty starting line |
| `VoiceLock.BlankFirstLine` | test/voice/wokwi/main.py:107-118 | such a message is drawn with an empty first line |
| `VoiceLock.BrokerRunShape` | test/voice/wokwi/main.py:156-172 | one broker gets attempts numbered consecutively, at most three; every attempt but the last failed with `OSError`; a run that neither connected nor raised made all three |
| `VoiceLock.SetupRunShape` | test/voice/wokwi/main.py:174-180 | brokers are tried in list order, three attempts each, stopping at the first success or uncaught exception; every attempt before the last failed with `OSError`; all brokers are tried three times when none connects or raises |
| `VoiceLock.ShapeAfterFailedBroker` | test/voice/wokwi/main.py:174-178 | the attempt numbering continues correctly after a broker that failed three times |
| `VoiceLock.BackoffSchedule` | test/voice/wokwi/main.py:166-171 | after failed attempt k < 3 the pause is 2^(k-1)+2 s (3 s, then 4 s), preceded by a restart when the error is 113; after the third attempt there is no pause |
| `VoiceLock.Firmware.constructor` | test/voice/wokwi/main.py:56-60 | no deadline, no message, not connected, empty log; the servo position is not known yet |
| `VoiceLock.Firmware.Boot` | test/voice/wokwi/main.py:182-186 | start-up runs the broker set-up; unless an exception escaped it, the servo is then closed, the lock is valid and the connection flag is whether set-up connected; an escaped exception ends the program with no servo move |
| `VoiceLock.Firmware.ServoAngle` | test/voice/wokwi/main.py:31-36 | the servo is moved only for an angle within 0..180 |
| `VoiceLock.Firmware.MqttCallback` | test/voice/wokwi/main.py:126-146 | the new globals and the effects are those of `Receive` |
| `VoiceLock.Firmware.Handle` | test/voice/wokwi/main.py:131-146 | each branch updates the globals and the log as `Apply` says |
| `VoiceLock.Firmware.AutoClose` | test/voice/wokwi/main.py:218-221 | the auto-close block updates the globals and the log as `Tick` says |
| `VoiceLock.Firmware.WrapText` | test/voice/wokwi/main.py:107-118 | the word-wrap loop builds exactly the lines of `Wrap`, whose order, fit, greediness and truncation are the lemmas above |
| `VoiceLock.Firmware.DrawPackageText` | test/voice/wokwi/main.py:104-122 | the lines drawn are the first three wrapped lines |
| `VoiceLock.Firmware.ShowMessage` | test/voice/wokwi/main.py:104-240 | the word-wrap loop and the display block produce what `Show` says: the first three wrapped lines, the duration and the acknowledgement |
| `VoiceLock.Firmware.ConnectToBroker` | test/voice/wokwi/main.py:154-172 | the retry loop returns `True` if and only if an attempt connected after `OSError` failures only, raises if and only if an attempt raised another exception after such failures, and logs the attempts of `BrokerTrace` |
| `VoiceLock.Firmware.TryConnect` | test/voice/wokwi/main.py:157-171 | one attempt logs its try, restart and pause, and sets the flag as its outcome says; an exception other than `OSError` is reported as raised with the flag unchanged |
| `VoiceLock.Firmware.SetupMqtt` | test/voice/wokwi/main.py:174-180 | the broker loop logs `SetupTrace`, raises exactly when `SetupRaises` holds, and leaves the flag `SetupFlag` gives |
| `MqttSimple.Digits` | test/wokwi/simple.py:89-93 | the base-128 digits of a length are below 128, the leading one is non-zero, and length 0 has none |
| `MqttSimple.DigitsRoundTrip` | test/wokwi/simple.py:89-93 | the digits, read most significant first, give back the length |
| `MqttSimple.DigitsCount` | test/wokwi/simple.py:86-93 | a length below 128^k has at most k digits |
| `MqttSimple.LengthBytesShape` | test/wokwi/simple.py:86-94 | there are no length bytes if and only if the length is 0; the first has bit 0x80 clear and every later one has it set; their low 7 bits are the digits in order; at most 3 bytes up to 0xFFFFF |
| `MqttSimple.LengthBytesDecode` | test/wokwi/simple.py:88-94 | the length bytes decode back to the length |
| `MqttSimple.Reverse` | test/wokwi/simple.py:94 | reversal keeps the length |
| `MqttSimple.LsbFirstIsStandard` | test/wokwi/simple.py:89-93 | before the reversal, the bytes are MQTT 3.1.1's Remaining Length encoding (section 2.2.3) for a positive length |
| `MqttSimple.ReversedLsbFirst` | test/wokwi/simple.py:89-94 | the bytes written are the reversal of the bytes accumulated |
| `MqttSimple.CodeReversesStandardEncoding` | test/wokwi/simple.py:88-94 | the code writes the standard encoding reversed for positive lengths, and nothing where the standard writes one 0x00 byte |
| `MqttSimple.ZeroLengthFrames` | test/wokwi/simple.py:95 | an empty PINGREQ or DISCONNECT frame is the single header byte |
| `MqttSimple.ReverseBytes` | test/wokwi/simple.py:94 | the in-place reversal leaves the array's reversal of its old contents |
| `MqttSimple.PackMsg` | test/wokwi/simple.py:84-95 | a payload over 0xFFFFF is refused; otherwise the packet is the command byte, the length bytes and the payload unchanged |
| `MqttSimple.PackU16` | test/wokwi/simple.py:109 | `struct.pack("!H")` succeeds exactly for 0..65535, giving two big-endian bytes of that value |
| `MqttSimple.PublishHeader` | test/wokwi/simple.py:104-108 | the PUBLISH header has type 3, no DUP flag, QoS bits 1 exactly for QoS 1, and the retain bit exactly when retained (sections 3.3.1.1-3.3.1.3 of MQTT 3.1.1) |
| `MqttSimple.SubscribeHeaders` | test/wokwi/simple.py:122-131 | SUBSCRIBE is type 8 and UNSUBSCRIBE type 10 with flags 0010, and PINGREQ and DISCONNECT are types 12 and 14 |
| `MqttSimple.Client.constructor` | test/wokwi/simple.py:20-41 | port 0 becomes 8883 with SSL and 1883 without; the packet id starts at 1; there are no pending ids, no queued messages and no callback |
| `MqttSimple.Client.SetCallback` | test/wokwi/simple.py:55-56 | the callback is installed or removed |
| `MqttSimple.Client.Notify` | test/wokwi/simple.py:43-47 | a message goes to the callback when one is set and is queued otherwise, never both |
| `MqttSimple.Client.NextId` | test/wokwi/simple.py:119-120 | the id is incremented before use, is at least 2 and larger than every id issued before |
| `MqttSimple.Client.Write` | test/wokwi/simple.py:112 | a packable payload is written as one packet; an oversized one raises and nothing is written |
| `MqttSimple.Client.Publish` | test/wokwi/simple.py:97-115 | QoS 2 raises before anything changes; QoS 0 writes `topic+msg` under the header without touching ids and returns; QoS 1 takes a fresh id, records it as pending with status 0, prefixes it to the payload and is left waiting on that id, whose status stays 0 |
| `MqttSimple.Client.Subscribe` | test/wokwi/simple.py:117-125 | a QoS outside 0..2 fails before anything changes; otherwise a fresh id, then the id, the QoS and the topic under header 0x82, and the call is left waiting on that id |
| `MqttSimple.Client.Unsubscribe` | test/wokwi/simple.py:127-134 | a fresh id, then the id and the topic under header 0xA2, and the call is left waiting on that id |
| `ServerIo.ReadText` | Final/main.py:96-100 | the text is the stripped string exactly when the body is an object whose `text` is a string; a `null` body, an empty body or one without `text` (no key, no such element, no such substring) is missing text (400); a body that does not parse, a truthy number or boolean, an array or string holding `text`, or a non-string `text` raises (500) |
| `ServerIo.NonObjectBodies` | python/app.py:95-99 | `"context"`, `["text"]` and `5` raise (500); `"paket"`, `[]` and `false` are missing text (400) |
| `Whitelist.FirstMatch` | Final/main.py:87-89 | the search returns the first name, in list order, contained in the text, and none if and only if no name is contained |
| `Whitelist.FirstMatchAt` | Final/main.py:87-89 | a name contained in the text with no earlier name contained is the one found |
| `Whitelist.ClassifyOrFallback` | Final/main.py:79-90 | a classifier answer is returned as it is; on failure the local fallback decides |
| `Whitelist.CapitalizedNames` | Final/main.py:77-89 | the capitalised registered names are `Aisyah`, `Rabiathul` and `Nadia` |
| `Whitelist.NameRoundTrip` | python/app.py:76-110 | lower-casing a capitalised registered name gives the registered name back |
| `Whitelist.FallbackOpensFirstListed` | Final/main.py:86-90 | the fallback opens if and only if some registered name occurs in the lower-cased text, and then with the capitalised first one in list order |
| `Whitelist.OpensWhenNamed` | Final/main.py:86-89 | a text containing a registered name opens, for one of the three capitalised names |
| `Whitelist.FallbackDeniesUnknown` | Final/main.py:90 | with no registered name in the text the fallback denies with `Maaf, nama tidak terdaftar.` |
| `Whitelist.FillerStillMatches` | Final/main.py:86-88 | filler words around a spoken name in any letter case still open, with that name when no earlier name occurs |
| `Whitelist.FallbackScenario` | Final/main.py:86-89 | `paket untuk Aisyah` opens for `Aisyah` |
| `SleepGateway.WithTts` | Final/maintest.py:126-127 | every result gets a `tts` key and keeps its other keys; an existing `tts` is kept, otherwise the `message`, otherwise `Respons default` |
| `SleepGateway.Fallback` | Final/maintest.py:130-145 | every fallback answer has a `tts` |
| `SleepGateway.Extract` | Final/maintest.py:108-145 | every decision has a `tts` |
| `SleepGateway.AsleepIgnoresClassifier` | Final/maintest.py:111-112 | asleep and without `hallo`, the answer is the sleep reply, the flag stays set, the classifier is not asked, and its answer has no influence |
| `SleepGateway.WakeWordWakes` | Final/maintest.py:114-116 | a text containing `hallo` clears the flag and gets the wake reply without asking the classifier |
| `SleepGateway.WakeAmidFiller` | Final/maintest.py:114-116 | `hallo` in any letter case amid other words wakes |
| `SleepGateway.SleepOnlyBySleepAction` | Final/maintest.py:118-123 | from awake, the flag is set if and only if the classifier is asked and answers with action `sleep` |
| `SleepGateway.SleepFlagSources` | Final/maintest.py:111-123 | the flag is set afterwards only if it was set and the text lacks `hallo`, or the classifier answered `sleep` |
| `SleepGateway.ConsultedIff` | Final/maintest.py:111-119 | the classifier is asked if and only if the flag is clear and the text lacks `hallo` |
| `SleepGateway.FallbackGuardsUnreachable` | Final/maintest.py:130-145 | on classifier failure the fallback only opens or denies and leaves the flag clear: its sleep and wake branches cannot be reached |
| `SleepGateway.FallbackOpensFirstListed` | Final/maintest.py:139-142 | on failure the first registered name in the text opens with its capitalised name and spoken confirmation, the same name as the shared fallback's |
| `SleepGateway.FallbackDenies` | Final/maintest.py:143-145 | on failure with no registered name the answer is this server's denial |
| `SleepGateway.Gateway.constructor` | Final/maintest.py:106 | awake, nothing asked, published or spoken |
| `SleepGateway.Gateway.ClassifierFailed` | Final/maintest.py:130-145 | the search loop with early return gives the decision and flag of `Fallback` |
| `SleepGateway.Gateway.ExtractName` | Final/maintest.py:108-145 | the decision and new flag are those of `Extract`, and the text is logged as asked exactly when the classifier was consulted |
| `SleepGateway.Gateway.OnMqttMessage` | Final/maintest.py:29-48 | a status message never reaches classification and `boot_ready` is spoken; every other text publishes exactly one decision for the stripped text |
| `SleepGateway.Gateway.HandleVoiceInput` | Final/maintest.py:148-163 | missing text is 400 and a non-string text 500, with no classification; otherwise 200 with the decision, whose `tts` is spoken |
| `RelayServer.OnMqttMessage` | Final/main.py:28-36 | every inbound message publishes exactly one decision; undecodable input publishes the error reply |
| `RelayServer.HandleVoiceInput` | Final/main.py:93-108 | 200 if and only if a text was given; missing text 400; non-string text 500 |
| `RelayServer.PassThrough` | Final/main.py:79-104 | a classifier answer is published and returned unchanged |
| `RelayServer.RoutesAgree` | Final/main.py:28-104 | MQTT and HTTP give the same decision for the same text |
| `RelayServer.FallbackNeverErrors` | Final/main.py:28-36 | with the classifier down, the published decision opens or denies and is never the error reply |
| `RelayServer.FillerOpensOverHttp` | Final/main.py:86-104 | a registered name amid filler opens over HTTP with the classifier down |
| `CommandBridge.Dispatch` | python/app.py:104-135 | a command is published if and only if the reply is 200; every reply is 200 or 500 |
| `CommandBridge.HandleVoiceInput` | python/app.py:92-139 | missing text is 400 and a non-string text 500, each without a publish |
| `CommandBridge.CommandsAreWire` | python/app.py:108-127 | every published command is `invalid_name`, `ask_name` or starts with `name:` |
| `CommandBridge.OpenPublishesName` | python/app.py:108-116 | `open` publishes `name:` and the lower-cased name and answers `open` with the name as given and the congratulation |
| `CommandBridge.OpenWithoutName` | python/app.py:105-139 | `open` without a name fails with 500 before anything is published |
| `CommandBridge.DenySpeaks` | python/app.py:118-124 | `deny` publishes `invalid_name` and speaks the message, or the default denial when it is empty or absent |
| `CommandBridge.AskNameEchoes` | python/app.py:126-132 | `ask_name` publishes `ask_name` and echoes the message, empty when absent |
| `CommandBridge.OtherActionsRefused` | python/app.py:134-135 | any other action, or none, is 500 `Unknown action` with no publish |
| `CommandBridge.NoRecheck` | python/app.py:80-110 | a classifier's `open` is forwarded for any name, registered or not |
| `CommandBridge.FallbackCommand` | python/app.py:83-110 | with the classifier down, the first registered name in the text is published as `name:` and that name |
| `CommandBridge.DispatchNamed` | python/app.py:108-110 | an `open` decision publishes `name:` and the lower-cased name |
| `CommandBridge.FallbackOpensVoiceBox` | python/app.py:83-110 | the command the fallback publishes opens the voice firmware's servo |
| `CommandBridge.UserData.constructor` | python/app.py:36 | the user data starts with `last_confirm` set to none |
| `CommandBridge.UserData.OnMqttMessage` | python/app.py:30-33 | a decoded confirmation is stored, not stripped, as `last_confirm`; an undecodable one stores nothing |
| `AudioServer.Commands` | test/6-1-26/RARE/main.py:99-103 | four commands for `open_box` and three otherwise, starting with `Berpikir`, then `play_audio response.wav`, then `Menjawab` |
| `AudioServer.AsleepGate` | test/6-1-26/RARE/main.py:42-43 | asleep and without `hallo`, the answer is the sleep command and the flag stays set, without the classifier |
| `AudioServer.WakeWordListens` | test/6-1-26/RARE/main.py:44-46 | `hallo` clears the flag and answers `set_status Mendengarkan` without the classifier |
| `AudioServer.SleepOnlyBySleepAction` | test/6-1-26/RARE/main.py:47-49 | from awake, the flag is set if and only if the classifier is asked and its `action` is `sleep` |
| `AudioServer.FailureIsServerError` | test/6-1-26/RARE/main.py:47-107 | a classifier failure is a 500 with nothing synthesised or published; there is no fallback |
| `AudioServer.EmptyAudioRefused` | test/6-1-26/RARE/main.py:74-76 | an empty body is 400 and nothing else happens |
| `AudioServer.ProcessedTurn` | test/6-1-26/RARE/main.py:93-104 | a processed utterance answers 200 with its text, synthesises the decision's speech and publishes exactly `Commands` |
| `AudioServer.OpenBoxOnlyWhenAsked` | test/6-1-26/RARE/main.py:100-101 | an `open_box` command is published if and only if the decision's `cmd` is `open_box`, and it carries the decision's name |
| `AudioServer.AsleepStillAnswers` | test/6-1-26/RARE/main.py:42-103 | asleep, the device is still told it is thinking, to play the sleep answer and that it is answering |
| `AudioServer.TtsDefault` | test/6-1-26/RARE/main.py:94 | a decision without `tts_text` speaks `Respons default` |
| `AudioServer.BootGreets` | test/6-1-26/RARE/main.py:118-127 | `boot_ready` on the status topic publishes `Menyapa` then plays `welcome.wav`; any other message does nothing |
| `AudioServer.Server.constructor` | test/6-1-26/RARE/main.py:38 | awake, nothing asked, synthesised or sent |
| `AudioServer.Server.ProcessVoiceCall` | test/6-1-26/RARE/main.py:40-50 | the decision and new flag are those of `ProcessVoice`; the text is logged as asked exactly when the classifier was consulted |
| `AudioServer.Server.Send` | test/6-1-26/RARE/main.py:26-27 | one command is published |
| `AudioServer.Server.SendCommands` | test/6-1-26/RARE/main.py:99-103 | the commands published are exactly `Commands` of the decision, in order |
| `AudioServer.Server.HandleAudio` | test/6-1-26/RARE/main.py:71-107 | the reply, the flag, the classifier calls, the speech and the commands are those of `AudioStream` |
| `AudioServer.Server.HandleStatus` | test/6-1-26/RARE/main.py:118-127 | the greeting's speech and commands are those of `OnMqttMessage` |

## Left out

- OLED drawing (faces, mouth, blinking, pixel positions) and the servo duty computation: floating-point arithmetic and framebuffer I/O. Only the word wrap, the lines drawn, the display time and the angle range check are modelled.
- WiFi set-up and the socket code of the MQTT client (`connect`, `_send_connack`, `wait_msg`, `check_msg`, `ping`, `disconnect`): network I/O. There is no decoder to pair with the encoder, so no encode/decode round trip over the wire is claimed.
- MqttSimple.Client.Publish, MqttSimple.Client.Subscribe, MqttSimple.Client.Unsubscribe: `AwaitsAck(id)` stands for the `wait_msg()` loop on `pid_status[id]`. Nothing in this client writes a non-zero status, and `wait_msg` only loops or raises, so in the source such a call blocks or raises and never returns normally; which exception it raises is socket I/O, left out with `wait_msg`. `set_last_will`/`_last_will` is left out with `connect`.
- MqttSimple.LengthBytesShape: modelled as written, not as MQTT 3.1.1 section 2.2.3: the digits go most significant first and length 0 has no bytes. `CodeReversesStandardEncoding` states the difference.
- The classifier, speech recognition, gTTS, pydub and espeak are foreign services and become parameters: the classifier answer, the transcript (`heard`), whether synthesis succeeds (`synthOk`) and the exception text (`why`). The espeak shell command string is not modelled; only the spoken text is logged.
- A classifier answer that is valid JSON but not an object is treated as a failure. In python/app.py such an answer would give 500, and Final/main.py would forward it unchanged; neither happens in this model.
- Flask and CORS plumbing: only the status code and the JSON body are modelled. A `request.get_json()` that raises (a body that does not parse) is the `Unparsable` request, answered 500 by the handler's `except`; numbers inside arrays and objects are not told apart from other non-string values.
- The paho network thread calls the MQTT handlers concurrently with Flask requests. Concurrency is not modelled: each handler call is atomic.
- `utime.ticks_add` and `ticks_diff` wrap around on MicroPython. Time is a plain unbounded number of milliseconds here, so the wrap-around is not captured.
- Text.IsSpace: white space is MicroPython's set (' ', '\t'..'\r'), which makes the firmware models exact. CPython's `str.strip()` and `split()`, used by the four servers (`ServerIo.ReadText`, the MQTT handlers of Final/main.py, Final/maintest.py and test/6-1-26/RARE/main.py), also treat '\x1c'..'\x1f' and non-ASCII Unicode white space as white space; the model does not strip or split on those.
- GeminiLock.Controller.AutoClose: whether the `closed` publish raises is a parameter (`publishRaises`); which exception it raises, and what the runtime does after the program ends, is not modelled.
- Strings are ASCII: Python's Unicode `lower`, `upper`, `capitalize` and `strip` are modelled on ASCII letters and on the white space of `Text.IsSpace` only.
- The main loops' reconnect every 15 s and `check_msg` error handling in both firmwares are not modelled; `GeminiLock.Controller.SetConnected` stands for the flag they set. The Gemini firmware's `connect_to_broker`/`setup_mqtt` (one attempt per broker) are left out.
- VoiceLock.Firmware.Boot: the broker list and each attempt's outcome are parameters (`brokers`, `probe`), and the pauses are logged, not slept. Which exception escapes an attempt is not modelled, only that it is not an `OSError` (`Raised`); the program then stops, and what the MicroPython runtime does after that is not modelled.
- SleepGateway.Gateway.OnMqttMessage: a payload that does not decode raises before the `try` and nothing is published, as the code does; the generic `error` publish of its exception handler cannot be reached in the model, because the fallback handles every classifier failure.
- VoiceLock.BlankFirstLine: the wrap draws an empty first line when the first word is 20 characters or longer; this is what the code does and is modelled as such.
