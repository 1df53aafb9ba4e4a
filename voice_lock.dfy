/**
 * The older ESP32 firmware (test/voice/wokwi/main.py). The box opens for a
 * whitelisted name and closes itself 2 seconds later; there is no guard
 * against re-opening an open box. Pending messages are word-wrapped for the
 * OLED and shown for a time that grows with their length. At start-up the
 * firmware tries each broker up to three times with a growing pause.
 *
 * Time is `utime.ticks_ms()` as a plain number of milliseconds; servo
 * moves, publishes, drawn text, pauses and connection attempts are a ghost
 * log of `Event`s.
 */
module VoiceLock {
  import opened Base
  import opened Text
  import Whitelist

  /** How long the box stays open (`ticks_add(..., 2000)`). */
  const OpenMs: nat := 2000
  const OpenAngle: int := 0
  const ClosedAngle: int := 90

  /** `MQTT_BROKERS`, tried in this order. */
  const Brokers: seq<string> := ["broker.hivemq.com", "mqtt.wokwi.com"]
  /** `range(1, 4)`: the attempts per broker. */
  const MaxAttempts: nat := 3

  const AskText := "Paket atas nama siapa?"
  const DeniedText := "Nama tidak terdaftar. Tidak bisa dibuka."
  const AckText := "Message displayed & lock handled"

  datatype Event =
    | ServoTo(angle: int)                        // servo.duty_u16 for that angle
    | Displayed(lines: seq<string>, seconds: nat) // draw_package_text, then time.sleep(package_duration)
    | Published(payload: string)                 // publish on package/confirm
    | Try(broker: string, attempt: nat)          // one pass of the try block in connect_to_broker
    | Subscribed(broker: string)                 // connect and subscribe succeeded
    | Restart                                    // restart_and_reconnect: 5 s pause, flag cleared
    | Backoff(seconds: nat)                      // time.sleep(2 ** (attempt - 1) + 2)

  // ---------------------------------------------------------------------
  // Servo
  // ---------------------------------------------------------------------

  /** `servo_angle(angle)`: only angles in 0..180 reach the servo; any other angle has no effect. */
  function ServoEffect(angle: int): (e: seq<Event>)
    ensures e != [] <==> 0 <= angle <= 180
    ensures forall i :: 0 <= i < |e| ==> e[i] == ServoTo(angle)
  {
    if 0 <= angle <= 180 then [ServoTo(angle)] else []
  }

  /** The angle of the last servo move in a log, if any. */
  function LastServo(evs: seq<Event>): Option<int> {
    if evs == [] then None
    else if evs[|evs| - 1].ServoTo? then Some(evs[|evs| - 1].angle)
    else LastServo(evs[..|evs| - 1])
  }

  lemma {:induction false} LastServoAppend(a: seq<Event>, b: seq<Event>)
    ensures LastServo(a + b) == if LastServo(b).Some? then LastServo(b) else LastServo(a)
    decreases |b|
  {
    if b == [] {
      assert a + b == a;
    } else {
      assert (a + b)[..|a + b| - 1] == a + b[..|b| - 1];
      LastServoAppend(a, b[..|b| - 1]);
    }
  }

  /** Every servo move in a log is to an angle the servo accepts. */
  ghost predicate AnglesInRange(evs: seq<Event>) {
    forall i :: 0 <= i < |evs| && evs[i].ServoTo? ==> 0 <= evs[i].angle <= 180
  }

  // ---------------------------------------------------------------------
  // Commands
  // ---------------------------------------------------------------------

  /** The branch of `mqtt_callback` a command takes. */
  datatype VoiceCommand = Trigger | NameGiven(name: string) | Other(text: string)

  /**
   * `msg.decode('utf-8').lower()` (not stripped), then: `trigger_detected`
   * anywhere wins; otherwise the stripped text between the first `name:`
   * and the next one; otherwise the lower-cased command itself.
   */
  function ParseVoice(msg: string): VoiceCommand {
    var command := Lower(msg);
    if Contains(command, "trigger_detected") then Trigger
    else if Contains(command, "name:") then NameGiven(Strip(SecondField(command, "name:")))
    else Other(command)
  }

  /** `name[0].upper() + name[1:]` */
  function DisplayName(name: string): string
    requires name != []
  {
    [UpperChar(name[0])] + name[1..]
  }

  function OpenedText(name: string): string
    requires name != []
  {
    "Paket untuk " + DisplayName(name) + ". Membuka kotak..."
  }

  /** The firmware's globals that the lock logic reads and writes. */
  datatype VoiceState = VoiceState(
    openUntil: int,              // servo_open_until, 0 when no close is pending
    message: Option<string>,     // package_message, or None
    connected: bool)             // mqtt_connected

  datatype Step = Step(state: VoiceState, effects: seq<Event>)

  /** The branch of `mqtt_callback` that command `c` takes, at time `now`. */
  function Apply(s: VoiceState, c: VoiceCommand, now: nat): Step {
    match c
    case Trigger => Step(s.(message := Some(AskText)), [])
    case NameGiven(name) =>
      if name in Whitelist.Names then
        Step(s.(message := Some(OpenedText(name)), openUntil := now + OpenMs), ServoEffect(OpenAngle))
      else Step(s.(message := Some(DeniedText)), [])
    case Other(text) => Step(s.(message := Some(text)), [])
  }

  /** `mqtt_callback(topic, msg)` at time `now`. */
  function Receive(s: VoiceState, msg: string, now: nat): Step {
    Apply(s, ParseVoice(msg), now)
  }

  /** Whether the auto-close block of the main loop fires at time `now`. */
  predicate Due(s: VoiceState, now: int) {
    s.openUntil != 0 && now - s.openUntil > 0
  }

  /** The auto-close block of the main loop at time `now`. */
  function Tick(s: VoiceState, now: nat): Step {
    if Due(s, now) then Step(s.(openUntil := 0), ServoEffect(ClosedAngle)) else Step(s, [])
  }

  /** Where the servo should be: open while a close is pending, closed otherwise. */
  function ServoPos(openUntil: int): int {
    if openUntil != 0 then OpenAngle else ClosedAngle
  }

  // ---------------------------------------------------------------------
  // Display
  // ---------------------------------------------------------------------

  /** `package_duration = max(3, len(package_message) // 20 + 2)`, in seconds. */
  function Duration(msg: string): nat {
    if |msg| / 20 + 2 > 3 then |msg| / 20 + 2 else 3
  }

  /** What `line` holds after the words of `g`: each word followed by one space. */
  function Render(g: seq<string>): string {
    if g == [] then "" else Render(g[..|g| - 1]) + g[|g| - 1] + " "
  }

  /** The finished lines (as word groups) and the words of the line being filled. */
  datatype Grouping = Grouping(closed: seq<seq<string>>, cur: seq<string>)

  /**
   * The greedy grouping of the wrap loop: a word joins the current line
   * while the line, the word and one space stay under 21 characters;
   * otherwise the current line is finished and the word starts the next.
   */
  function Group(words: seq<string>): Grouping {
    if words == [] then Grouping([], [])
    else
      var p := Group(words[..|words| - 1]);
      var w := words[|words| - 1];
      if |Render(p.cur) + w + " "| < 21 then Grouping(p.closed, p.cur + [w])
      else Grouping(p.closed + [p.cur], [w])
  }

  /** The words of a sequence of groups, in order. */
  function Flatten(gs: seq<seq<string>>): seq<string> {
    if gs == [] then [] else Flatten(gs[..|gs| - 1]) + gs[|gs| - 1]
  }

  /** `s[:20] + '...' if len(s) > 20 else s` */
  function Ellipsize(l: string): string {
    if |l| > 20 then l[..20] + "..." else l
  }

  /** The finished lines as `lines.append(line.strip())` records them. */
  function DrawLines(gs: seq<seq<string>>): (lines: seq<string>)
    ensures |lines| == |gs|
  {
    if gs == [] then [] else DrawLines(gs[..|gs| - 1]) + [Strip(Render(gs[|gs| - 1]))]
  }

  lemma {:induction false} DrawLinesAt(gs: seq<seq<string>>, k: nat)
    requires k < |gs|
    ensures DrawLines(gs)[k] == Strip(Render(gs[k]))
    decreases |gs|
  {
    if k < |gs| - 1 {
      DrawLinesAt(gs[..|gs| - 1], k);
    }
  }

  /** The lines drawn for a grouping: the finished ones, then the one being filled unless it is empty. */
  function Layout(g: Grouping): seq<string> {
    DrawLines(g.closed) + (if Render(g.cur) != "" then [Ellipsize(Strip(Render(g.cur)))] else [])
  }

  /** The `lines` list that `draw_package_text(text)` builds. */
  function Wrap(text: string): seq<string> {
    Layout(Group(Words(text)))
  }

  /** `lines[:3]`: the lines that are drawn. */
  function Visible(lines: seq<string>): (v: seq<string>)
    ensures |v| <= 3 && |v| <= |lines| && v == lines[..|v|]
    ensures |v| == |lines| || |v| == 3
  {
    lines[..if |lines| < 3 then |lines| else 3]
  }

  /** The display block of the main loop: a pending non-empty message is shown once and cleared. */
  function Show(s: VoiceState): Step {
    if s.message.Some? && s.message.value != [] then
      var m := s.message.value;
      Step(s.(message := None),
           [Displayed(Visible(Wrap(m)), Duration(m))] + (if s.connected then [Published(AckText)] else []))
    else Step(s, [])
  }

  // ---------------------------------------------------------------------
  // Broker retry schedule
  // ---------------------------------------------------------------------

  /**
   * How one pass of the try block in `connect_to_broker` ends. `OsError`
   * is caught by `except OSError`; `unreachable` is `'113' in str(e)`.
   * `Raised` is any other exception (an `MQTTException` from `connect` or
   * `subscribe`, say): nothing catches it, so it leaves `connect_to_broker`,
   * `setup_mqtt()` and the start-up, and the program stops.
   */
  datatype Outcome = Connected | OsError(unreachable: bool) | Raised

  /** The broker's answer to each attempt, by broker and attempt number. */
  type Probe = (string, nat) -> Outcome

  function Pow2(k: nat): nat {
    if k == 0 then 1 else 2 * Pow2(k - 1)
  }

  /** The effects of attempt `n` at `broker` with outcome `o`. */
  function AttemptEvents(broker: string, n: nat, o: Outcome): seq<Event>
    requires 1 <= n
  {
    match o
    case Connected => [Try(broker, n), Subscribed(broker)]
    case OsError(u) =>
      [Try(broker, n)] + (if u then [Restart] else []) + (if n < MaxAttempts then [Backoff(Pow2(n - 1) + 2)] else [])
    case Raised => [Try(broker, n)]
  }

  /** The attempts `connect_to_broker(broker)` makes from attempt `n` on. */
  function BrokerRun(broker: string, probe: Probe, n: nat): (r: seq<(string, nat)>)
    requires 1 <= n <= MaxAttempts
    ensures r != [] && r[0] == (broker, n)
    decreases MaxAttempts - n
  {
    if !probe(broker, n).OsError? || n == MaxAttempts then [(broker, n)]
    else [(broker, n)] + BrokerRun(broker, probe, n + 1)
  }

  /** Whether a run of attempts ended connected. */
  predicate Succeeded(run: seq<(string, nat)>, probe: Probe) {
    run != [] && probe(run[|run| - 1].0, run[|run| - 1].1).Connected?
  }

  /** Whether a run of attempts ended with an exception nothing catches. */
  predicate Crashed(run: seq<(string, nat)>, probe: Probe) {
    run != [] && probe(run[|run| - 1].0, run[|run| - 1].1).Raised?
  }

  /** The attempts `setup_mqtt()` makes: broker after broker until one connects or raises. */
  function SetupRun(brokers: seq<string>, probe: Probe): seq<(string, nat)> {
    if brokers == [] then []
    else
      var r := BrokerRun(brokers[0], probe, 1);
      if Succeeded(r, probe) || Crashed(r, probe) then r else r + SetupRun(brokers[1..], probe)
  }

  /** The effects of a run of attempts, attempt after attempt. */
  function TraceOf(run: seq<(string, nat)>, probe: Probe): seq<Event> {
    if run == [] then []
    else if run[0].1 < 1 then TraceOf(run[1..], probe)
    else AttemptEvents(run[0].0, run[0].1, probe(run[0].0, run[0].1)) + TraceOf(run[1..], probe)
  }

  lemma {:induction false} TraceAppend(a: seq<(string, nat)>, b: seq<(string, nat)>, probe: Probe)
    ensures TraceOf(a + b, probe) == TraceOf(a, probe) + TraceOf(b, probe)
    decreases |a|
  {
    if a == [] {
      assert a + b == b;
    } else {
      assert (a + b)[1..] == a[1..] + b;
      TraceAppend(a[1..], b, probe);
    }
  }

  lemma Assoc(a: seq<Event>, b: seq<Event>, c: seq<Event>)
    ensures a + (b + c) == (a + b) + c
  {
  }

  lemma EndAppend(a: seq<(string, nat)>, b: seq<(string, nat)>, probe: Probe)
    requires b != []
    ensures Succeeded(a + b, probe) == Succeeded(b, probe)
    ensures Crashed(a + b, probe) == Crashed(b, probe)
  {
    assert (a + b)[|a + b| - 1] == b[|b| - 1];
  }

  /** The effects of `connect_to_broker(broker)` from attempt `n` on. */
  function BrokerTrace(broker: string, probe: Probe, n: nat): seq<Event>
    requires 1 <= n <= MaxAttempts
    decreases MaxAttempts - n
  {
    var o := probe(broker, n);
    AttemptEvents(broker, n, o) + (if !o.OsError? || n == MaxAttempts then [] else BrokerTrace(broker, probe, n + 1))
  }

  /** Whether `connect_to_broker(broker)`, from attempt `n` on, returns `True`. */
  predicate BrokerUp(broker: string, probe: Probe, n: nat)
    requires 1 <= n <= MaxAttempts
    decreases MaxAttempts - n
  {
    probe(broker, n).Connected? || (probe(broker, n).OsError? && n < MaxAttempts && BrokerUp(broker, probe, n + 1))
  }

  /** Whether `connect_to_broker(broker)`, from attempt `n` on, ends with an uncaught exception. */
  predicate BrokerRaises(broker: string, probe: Probe, n: nat)
    requires 1 <= n <= MaxAttempts
    decreases MaxAttempts - n
  {
    probe(broker, n).Raised? || (probe(broker, n).OsError? && n < MaxAttempts && BrokerRaises(broker, probe, n + 1))
  }

  /** Whether `connect_to_broker(broker)` returns `False`: every attempt failed with an `OSError`. */
  predicate BrokerFails(broker: string, probe: Probe)
  {
    !BrokerUp(broker, probe, 1) && !BrokerRaises(broker, probe, 1)
  }

  /** `mqtt_connected` after the attempts from `n` on, when it was `c` before them. */
  function ConnectedFrom(c: bool, broker: string, probe: Probe, n: nat): bool
    requires 1 <= n <= MaxAttempts
    decreases MaxAttempts - n
  {
    match probe(broker, n)
    case Connected => true
    case OsError(u) =>
      var c' := if u then false else c;
      if n == MaxAttempts then c' else ConnectedFrom(c', broker, probe, n + 1)
    case Raised => c
  }

  /** The effects of `setup_mqtt()`'s loop over `brokers`. */
  function SetupTrace(brokers: seq<string>, probe: Probe): seq<Event> {
    if brokers == [] then []
    else BrokerTrace(brokers[0], probe, 1) + (if BrokerFails(brokers[0], probe) then SetupTrace(brokers[1..], probe) else [])
  }

  /** Whether `setup_mqtt()` returns early, connected to some broker. */
  predicate SetupUp(brokers: seq<string>, probe: Probe) {
    brokers != [] && (BrokerUp(brokers[0], probe, 1) || (BrokerFails(brokers[0], probe) && SetupUp(brokers[1..], probe)))
  }

  /** Whether an exception escapes `setup_mqtt()`. */
  predicate SetupRaises(brokers: seq<string>, probe: Probe) {
    brokers != [] && (BrokerRaises(brokers[0], probe, 1) || (BrokerFails(brokers[0], probe) && SetupRaises(brokers[1..], probe)))
  }

  /** `mqtt_connected` once `setup_mqtt()` returns or raises, when it was `c` before. */
  function SetupFlag(c: bool, brokers: seq<string>, probe: Probe): bool {
    if brokers == [] then false
    else
      var c' := ConnectedFrom(c, brokers[0], probe, 1);
      if BrokerFails(brokers[0], probe) then SetupFlag(c', brokers[1..], probe) else c'
  }

  /**
   * The start-up connects exactly when some broker answers within three
   * attempts and every broker before it failed with `OSError` three times.
   */
  lemma {:induction false} SetupUpAny(brokers: seq<string>, probe: Probe)
    ensures SetupUp(brokers, probe) <==>
      exists i :: 0 <= i < |brokers| && BrokerUp(brokers[i], probe, 1) && forall j :: 0 <= j < i ==> BrokerFails(brokers[j], probe)
    decreases |brokers|
  {
    if brokers != [] {
      var tail := brokers[1..];
      SetupUpAny(tail, probe);
      if BrokerFails(brokers[0], probe) {
        if SetupUp(tail, probe) {
          var i :| 0 <= i < |tail| && BrokerUp(tail[i], probe, 1) && forall j :: 0 <= j < i ==> BrokerFails(tail[j], probe);
          FailsShift(brokers, i, probe);
        }
        if exists i :: 0 <= i < |brokers| && BrokerUp(brokers[i], probe, 1) && forall j :: 0 <= j < i ==> BrokerFails(brokers[j], probe) {
          var i :| 0 <= i < |brokers| && BrokerUp(brokers[i], probe, 1) && forall j :: 0 <= j < i ==> BrokerFails(brokers[j], probe);
          FailsUnshift(brokers, i, probe);
        }
      } else {
        FirstStops(brokers, probe);
      }
    }
  }

  /**
   * The start-up raises exactly when some broker's attempt raises an
   * exception other than `OSError` and every broker before it failed with
   * `OSError` three times.
   */
  lemma {:induction false} SetupRaisesAny(brokers: seq<string>, probe: Probe)
    ensures SetupRaises(brokers, probe) <==>
      exists i :: 0 <= i < |brokers| && BrokerRaises(brokers[i], probe, 1) && forall j :: 0 <= j < i ==> BrokerFails(brokers[j], probe)
    decreases |brokers|
  {
    if brokers != [] {
      var tail := brokers[1..];
      SetupRaisesAny(tail, probe);
      if BrokerFails(brokers[0], probe) {
        if SetupRaises(tail, probe) {
          var i :| 0 <= i < |tail| && BrokerRaises(tail[i], probe, 1) && forall j :: 0 <= j < i ==> BrokerFails(tail[j], probe);
          FailsShift(brokers, i, probe);
        }
        if exists i :: 0 <= i < |brokers| && BrokerRaises(brokers[i], probe, 1) && forall j :: 0 <= j < i ==> BrokerFails(brokers[j], probe) {
          var i :| 0 <= i < |brokers| && BrokerRaises(brokers[i], probe, 1) && forall j :: 0 <= j < i ==> BrokerFails(brokers[j], probe);
          FailsUnshift(brokers, i, probe);
        }
      } else {
        FirstStops(brokers, probe);
      }
    }
  }

  /** A witness `i` for the tail is a witness `i + 1` for the whole list when the head fails. */
  lemma FailsShift(brokers: seq<string>, i: nat, probe: Probe)
    requires brokers != [] && i < |brokers| - 1 && BrokerFails(brokers[0], probe)
    requires forall j :: 0 <= j < i ==> BrokerFails(brokers[1..][j], probe)
    ensures brokers[i + 1] == brokers[1..][i]
    ensures forall j :: 0 <= j < i + 1 ==> BrokerFails(brokers[j], probe)
  {
    forall j | 0 < j < i + 1
      ensures BrokerFails(brokers[j], probe)
    {
      assert brokers[j] == brokers[1..][j - 1];
    }
  }

  /** A witness `i` for the whole list is a witness `i - 1` for the tail when the head fails. */
  lemma FailsUnshift(brokers: seq<string>, i: nat, probe: Probe)
    requires i < |brokers| && BrokerFails(brokers[0], probe) && !BrokerFails(brokers[i], probe)
    requires forall j :: 0 <= j < i ==> BrokerFails(brokers[j], probe)
    ensures 0 < i
    ensures brokers[1..][i - 1] == brokers[i]
    ensures forall j :: 0 <= j < i - 1 ==> BrokerFails(brokers[1..][j], probe)
  {
    forall j | 0 <= j < i - 1
      ensures BrokerFails(brokers[1..][j], probe)
    {
      assert brokers[1..][j] == brokers[j + 1];
    }
  }

  /** When the first broker does not fail, it alone decides how the start-up ends. */
  lemma FirstStops(brokers: seq<string>, probe: Probe)
    requires brokers != [] && !BrokerFails(brokers[0], probe)
    ensures (exists i :: 0 <= i < |brokers| && BrokerUp(brokers[i], probe, 1) && forall j :: 0 <= j < i ==> BrokerFails(brokers[j], probe))
            <==> BrokerUp(brokers[0], probe, 1)
    ensures (exists i :: 0 <= i < |brokers| && BrokerRaises(brokers[i], probe, 1) && forall j :: 0 <= j < i ==> BrokerFails(brokers[j], probe))
            <==> BrokerRaises(brokers[0], probe, 1)
  {
    if exists i :: 0 <= i < |brokers| && BrokerUp(brokers[i], probe, 1) && forall j :: 0 <= j < i ==> BrokerFails(brokers[j], probe) {
      var i :| 0 <= i < |brokers| && BrokerUp(brokers[i], probe, 1) && forall j :: 0 <= j < i ==> BrokerFails(brokers[j], probe);
      assert i == 0;
    }
    if exists i :: 0 <= i < |brokers| && BrokerRaises(brokers[i], probe, 1) && forall j :: 0 <= j < i ==> BrokerFails(brokers[j], probe) {
      var i :| 0 <= i < |brokers| && BrokerRaises(brokers[i], probe, 1) && forall j :: 0 <= j < i ==> BrokerFails(brokers[j], probe);
      assert i == 0;
    }
  }

  /** `connect_to_broker` cannot both return `True` and raise. */
  lemma {:induction false} UpExcludesRaise(broker: string, probe: Probe, n: nat)
    requires 1 <= n <= MaxAttempts
    ensures !(BrokerUp(broker, probe, n) && BrokerRaises(broker, probe, n))
    decreases MaxAttempts - n
  {
    if probe(broker, n).OsError? && n < MaxAttempts {
      UpExcludesRaise(broker, probe, n + 1);
    }
  }

  /** A broker that answers leaves `mqtt_connected` set, whatever it was before. */
  lemma {:induction false} UpConnects(c: bool, broker: string, probe: Probe, n: nat)
    requires 1 <= n <= MaxAttempts && BrokerUp(broker, probe, n)
    ensures ConnectedFrom(c, broker, probe, n)
    decreases MaxAttempts - n
  {
    if !probe(broker, n).Connected? {
      UpConnects(if probe(broker, n).unreachable then false else c, broker, probe, n + 1);
    }
  }

  /**
   * Unless an exception escapes it, `setup_mqtt()` leaves `mqtt_connected`
   * set exactly when it connected: a connection sets it, and running out of
   * brokers clears it.
   */
  lemma {:induction false} SetupFlagIsUp(c: bool, brokers: seq<string>, probe: Probe)
    requires !SetupRaises(brokers, probe)
    ensures SetupFlag(c, brokers, probe) == SetupUp(brokers, probe)
    decreases |brokers|
  {
    if brokers != [] {
      if BrokerUp(brokers[0], probe, 1) {
        UpConnects(c, brokers[0], probe, 1);
      } else {
        SetupFlagIsUp(ConnectedFrom(c, brokers[0], probe, 1), brokers[1..], probe);
      }
    }
  }

  /** The effects of one broker are those of its attempts, in order. */
  lemma {:induction false} BrokerTraceIsRun(broker: string, probe: Probe, n: nat)
    requires 1 <= n <= MaxAttempts
    ensures BrokerTrace(broker, probe, n) == TraceOf(BrokerRun(broker, probe, n), probe)
    ensures BrokerUp(broker, probe, n) == Succeeded(BrokerRun(broker, probe, n), probe)
    ensures BrokerRaises(broker, probe, n) == Crashed(BrokerRun(broker, probe, n), probe)
    decreases MaxAttempts - n
  {
    if !probe(broker, n).OsError? || n == MaxAttempts {
      assert [(broker, n)][1..] == [];
    } else {
      BrokerTraceIsRun(broker, probe, n + 1);
      var rest := BrokerRun(broker, probe, n + 1);
      assert ([(broker, n)] + rest)[1..] == rest;
      EndAppend([(broker, n)], rest, probe);
    }
  }

  /** The effects of the start-up are those of its attempts, in order. */
  lemma {:induction false} SetupTraceIsRun(brokers: seq<string>, probe: Probe)
    ensures SetupTrace(brokers, probe) == TraceOf(SetupRun(brokers, probe), probe)
    ensures SetupUp(brokers, probe) == Succeeded(SetupRun(brokers, probe), probe)
    ensures SetupRaises(brokers, probe) == Crashed(SetupRun(brokers, probe), probe)
    decreases |brokers|
  {
    if brokers != [] {
      var r := BrokerRun(brokers[0], probe, 1);
      BrokerTraceIsRun(brokers[0], probe, 1);
      if !Succeeded(r, probe) && !Crashed(r, probe) {
        var rest := SetupRun(brokers[1..], probe);
        SetupTraceIsRun(brokers[1..], probe);
        TraceAppend(r, rest, probe);
        if rest == [] {
          assert r + rest == r;
        } else {
          EndAppend(r, rest, probe);
        }
      }
    }
  }

  lemma {:induction false} NoServoNoLast(evs: seq<Event>)
    requires forall i :: 0 <= i < |evs| ==> !evs[i].ServoTo?
    ensures LastServo(evs) == None
    decreases |evs|
  {
    if evs != [] {
      NoServoNoLast(evs[..|evs| - 1]);
    }
  }

  /** Connection attempts never move the servo. */
  lemma {:induction false} TraceHasNoServo(run: seq<(string, nat)>, probe: Probe)
    ensures forall i :: 0 <= i < |TraceOf(run, probe)| ==> !TraceOf(run, probe)[i].ServoTo?
    ensures LastServo(TraceOf(run, probe)) == None
    decreases |run|
  {
    if run != [] {
      TraceHasNoServo(run[1..], probe);
    }
    NoServoNoLast(TraceOf(run, probe));
  }

  /** The start-up never moves the servo. */
  lemma SetupHasNoServo(brokers: seq<string>, probe: Probe)
    ensures forall i :: 0 <= i < |SetupTrace(brokers, probe)| ==> !SetupTrace(brokers, probe)[i].ServoTo?
  {
    SetupTraceIsRun(brokers, probe);
    TraceHasNoServo(SetupRun(brokers, probe), probe);
  }

  /** A log with no servo move, followed by a move to the closed angle, leaves the servo closed. */
  lemma ClosedAfter(evs: seq<Event>)
    requires forall i :: 0 <= i < |evs| ==> !evs[i].ServoTo?
    ensures LastServo(evs + [ServoTo(ClosedAngle)]) == Some(ClosedAngle)
    ensures AnglesInRange(evs + [ServoTo(ClosedAngle)])
  {
    var all := evs + [ServoTo(ClosedAngle)];
    assert all[..|all| - 1] == evs;
  }

  /** After the start-up the servo has only been sent to the closed angle. */
  lemma BootLog(brokers: seq<string>, probe: Probe)
    ensures LastServo(SetupTrace(brokers, probe) + [ServoTo(ClosedAngle)]) == Some(ClosedAngle)
    ensures AnglesInRange(SetupTrace(brokers, probe) + [ServoTo(ClosedAngle)])
  {
    SetupHasNoServo(brokers, probe);
    ClosedAfter(SetupTrace(brokers, probe));
  }

  // ---------------------------------------------------------------------
  // Properties of the lock
  // ---------------------------------------------------------------------

  /**
   * A name opens (servo to 0, close due in 2000 ms) exactly when it is one
   * of the registered names; otherwise the servo and the deadline are
   * untouched and the denial is shown.
   */
  lemma NameOpensOnlyWhenListed(s: VoiceState, name: string, now: nat)
    ensures var t := Apply(s, NameGiven(name), now);
      && (t.effects != [] <==> name in Whitelist.Names)
      && (name in Whitelist.Names ==> t.effects == [ServoTo(OpenAngle)] && t.state.openUntil == now + OpenMs)
      && (name !in Whitelist.Names ==> t.state.openUntil == s.openUntil && t.state.message == Some(DeniedText))
  {
  }

  /**
   * There is no open-state guard: a listed name while the box is already
   * open moves the servo again and pushes the deadline to now + 2000.
   */
  lemma RepeatedNameReopens(s: VoiceState, k: nat, now: nat)
    requires k < |Whitelist.Names| && s.openUntil != 0
    ensures var t := Apply(s, NameGiven(Whitelist.Names[k]), now);
      t.effects == [ServoTo(OpenAngle)] && t.state.openUntil == now + OpenMs
  {
  }

  /** `trigger_detected` and other commands only set the message; the servo and the deadline stay. */
  lemma NonNameCommands(s: VoiceState, c: VoiceCommand, now: nat)
    requires !c.NameGiven?
    ensures var t := Apply(s, c, now);
      t.effects == [] && t.state.openUntil == s.openUntil && t.state.connected == s.connected
      && t.state.message == Some(if c.Trigger? then AskText else c.text)
  {
  }

  /**
   * A command containing `trigger_detected`, in any letter case (any `t`
   * whose lower-case form it is), wins over `name:`.
   */
  lemma TriggerWins(pre: string, t: string, post: string)
    requires Lower(t) == "trigger_detected"
    ensures ParseVoice(pre + t + post) == Trigger
  {
    TriggerFound(pre, t, post, pre + t + post);
  }

  lemma TriggerFound(pre: string, t: string, post: string, msg: string)
    requires msg == pre + t + post && Lower(t) == "trigger_detected"
    ensures Contains(Lower(msg), "trigger_detected")
  {
    LowerAppend(pre + t, post);
    LowerAppend(pre, t);
    assert Lower(msg) == Lower(pre) + "trigger_detected" + Lower(post);
    ContainsInfix(Lower(pre), "trigger_detected", Lower(post));
  }

  /**
   * A `name:` command carries the name that follows it: for a clean,
   * lower-case name without a colon and without `trigger_detected`, the
   * parsed name is that name.
   */
  lemma NameCommandParses(name: string)
    requires name != [] && IsLower(name) && !Contains(name, "trigger_detected")
    requires !IsSpace(name[0]) && !IsSpace(name[|name| - 1])
    requires forall j :: 0 <= j < |name| ==> name[j] != ':'
    ensures ParseVoice("name:" + name) == NameGiven(name)
  {
    var c := "name:" + name;
    NameCommandLower(name, c);
    NoTriggerAcrossPrefix(name, c);
    NameField(name, c);
    StripClean(name);
  }

  /** `trigger_detected` has no colon, so no occurrence of it can reach into the `name:` prefix. */
  lemma NoTriggerAcrossPrefix(name: string, c: string)
    requires c == "name:" + name && !Contains(name, "trigger_detected")
    ensures !Contains(c, "trigger_detected")
  {
    var t := "trigger_detected";
    forall j | 0 <= j < 5
      ensures !StartsWith(c[j..], t)
    {
      assert c[j..][4 - j] == ':';
      assert t[4 - j] != ':';
    }
    assert c[5..] == name;
    NotContainsFrom(c, t, 5);
  }

  lemma NameCommandLower(name: string, c: string)
    requires c == "name:" + name && IsLower(name)
    ensures Lower(c) == c
  {
    assert IsLower(c);
    LowerOfLower(c);
  }

  lemma NameField(name: string, c: string)
    requires c == "name:" + name
    requires forall j :: 0 <= j < |name| ==> name[j] != ':'
    ensures Contains(c, "name:") && SecondField(c, "name:") == name
  {
    assert StartsWith(c, "name:");
    assert c[0..] == c;
    var i := IndexOf(c, "name:").value;
    assert i == 0;
    assert c[5..] == name;
    MissingCharNotContained(name, "name:", 4);
  }

  /** Each registered name, after `name:`, opens the box. */
  lemma ListedNamesOpen(s: VoiceState, k: nat, now: nat)
    requires k < |Whitelist.Names|
    ensures Receive(s, "name:" + Whitelist.Names[k], now).effects == [ServoTo(OpenAngle)]
  {
    var name := Whitelist.Names[k];
    RegisteredNameClean(name);
    NameCommandParses(name);
  }

  /** Every registered name meets the conditions of `NameCommandParses`. */
  lemma RegisteredNameClean(name: string)
    requires name in Whitelist.Names
    ensures name != [] && IsLower(name) && !Contains(name, "trigger_detected")
    ensures !IsSpace(name[0]) && !IsSpace(name[|name| - 1])
    ensures forall j :: 0 <= j < |name| ==> name[j] != ':'
  {
    RegisteredNameShape(name);
    RegisteredNameShort(name);
  }

  lemma RegisteredNameShape(name: string)
    requires name in Whitelist.Names
    ensures name != [] && IsLower(name)
    ensures !IsSpace(name[0]) && !IsSpace(name[|name| - 1])
    ensures forall j :: 0 <= j < |name| ==> name[j] != ':'
  {
  }

  lemma RegisteredNameShort(name: string)
    requires name in Whitelist.Names
    ensures !Contains(name, "trigger_detected")
  {
    assert |name| < |"trigger_detected"|;
    TooShort(name, "trigger_detected");
  }

  /**
   * The auto-close fires exactly when a close is pending and due; it moves
   * the servo to 90 and clears the deadline, so it fires once per open.
   */
  lemma AutoCloseOnce(s: VoiceState, now: nat, later: nat)
    ensures Tick(s, now).effects != [] <==> Due(s, now)
    ensures Due(s, now) ==>
      && Tick(s, now).effects == [ServoTo(ClosedAngle)] && Tick(s, now).state.openUntil == 0
      && Tick(Tick(s, now).state, later).effects == []
    ensures !Due(s, now) ==> Tick(s, now).state == s
  {
  }

  /** Whether a step keeps the servo where its deadline says it is. */
  ghost predicate ServoAgrees(s: VoiceState, t: Step) {
    && AnglesInRange(t.effects)
    && ((LastServo(t.effects) == None && t.state.openUntil == s.openUntil)
        || LastServo(t.effects) == Some(ServoPos(t.state.openUntil)))
  }

  /**
   * Each command leaves the servo where the deadline says it is: either it
   * moves no servo and keeps the deadline, or its last move is to the open
   * angle exactly when a close is pending afterwards.
   */
  lemma CommandServo(s: VoiceState, c: VoiceCommand, now: nat)
    ensures ServoAgrees(s, Apply(s, c, now))
  {
    var t := Apply(s, c, now);
    if c.NameGiven? && c.name in Whitelist.Names {
      assert t.effects == [ServoTo(OpenAngle)];
      assert LastServo(t.effects) == Some(OpenAngle);
    } else {
      assert t.effects == [];
    }
  }

  /** So does the auto-close. */
  lemma TickServo(s: VoiceState, now: nat)
    ensures ServoAgrees(s, Tick(s, now))
  {
    if Due(s, now) {
      assert Tick(s, now).effects == [ServoTo(ClosedAngle)];
      assert LastServo(Tick(s, now).effects) == Some(ClosedAngle);
    }
  }

  /**
   * A step that agrees with the servo keeps the firmware's log consistent:
   * the last servo move still matches the deadline and every move is in range.
   */
  lemma ValidStep(evs: seq<Event>, s: VoiceState, t: Step)
    requires LastServo(evs) == Some(ServoPos(s.openUntil)) && AnglesInRange(evs)
    requires ServoAgrees(s, t)
    ensures LastServo(evs + t.effects) == Some(ServoPos(t.state.openUntil))
    ensures AnglesInRange(evs + t.effects)
  {
    LastServoAppend(evs, t.effects);
    forall i | 0 <= i < |evs + t.effects| && (evs + t.effects)[i].ServoTo?
      ensures 0 <= (evs + t.effects)[i].angle <= 180
    {
      if i >= |evs| {
        assert (evs + t.effects)[i] == t.effects[i - |evs|];
      }
    }
  }

  /** And the display block, which moves no servo. */
  lemma ShowServo(s: VoiceState)
    ensures ServoAgrees(s, Show(s))
  {
    var m := Show(s);
    assert forall i :: 0 <= i < |m.effects| ==> !m.effects[i].ServoTo?;
    NoServoNoLast(m.effects);
  }

  /** The display pause is at least 3 s, and one second more for every 20 characters from 40 on. */
  lemma DurationBounds(msg: string)
    ensures Duration(msg) >= 3
    ensures |msg| < 40 ==> Duration(msg) == 3
    ensures |msg| >= 40 ==> Duration(msg) == |msg| / 20 + 2
  {
  }

  /** A shown message is cleared, at most 3 lines are drawn, and the acknowledgement goes out only while connected. */
  lemma ShowOnce(s: VoiceState)
    requires s.message.Some? && s.message.value != []
    ensures Show(s).state.message == None
    ensures Show(s).effects[0].Displayed? && |Show(s).effects[0].lines| <= 3
    ensures Show(s).effects[0].seconds >= 3
    ensures |Show(s).effects| == (if s.connected then 2 else 1)
    ensures s.connected ==> Show(s).effects[1] == Published(AckText)
    ensures Show(Show(s).state).effects == []
  {
    DurationBounds(s.message.value);
  }

  // ---------------------------------------------------------------------
  // Properties of the word wrap
  // ---------------------------------------------------------------------

  lemma RenderAppend(g: seq<string>, w: string)
    ensures Render(g + [w]) == Render(g) + w + " "
  {
    assert (g + [w])[..|g + [w]| - 1] == g;
  }

  /** One more word, as the wrap loop takes it. */
  lemma GroupStep(words: seq<string>, i: nat)
    requires i < |words|
    ensures var p := Group(words[..i]);
      Group(words[..i + 1]) ==
        if |Render(p.cur) + words[i] + " "| < 21 then Grouping(p.closed, p.cur + [words[i]])
        else Grouping(p.closed + [p.cur], [words[i]])
  {
    assert words[..i + 1][..i] == words[..i];
  }

  /** A pass of the wrap loop where the word joins the line being filled. */
  lemma WrapJoin(words: seq<string>, i: nat, g: Grouping, line: string)
    requires i < |words| && g == Group(words[..i]) && line == Render(g.cur)
    requires |line + words[i] + " "| < 21
    ensures Group(words[..i + 1]) == Grouping(g.closed, g.cur + [words[i]])
    ensures Render(g.cur + [words[i]]) == line + words[i] + " "
  {
    GroupStep(words, i);
    RenderAppend(g.cur, words[i]);
  }

  /** A pass of the wrap loop where the line is finished and the word starts the next one. */
  lemma WrapBreak(words: seq<string>, i: nat, g: Grouping, lines: seq<string>, line: string)
    requires i < |words| && g == Group(words[..i]) && line == Render(g.cur)
    requires lines == DrawLines(g.closed)
    requires |line + words[i] + " "| >= 21
    ensures Group(words[..i + 1]) == Grouping(g.closed + [g.cur], [words[i]])
    ensures DrawLines(g.closed + [g.cur]) == lines + [Strip(line)]
    ensures Render([words[i]]) == words[i] + " "
  {
    GroupStep(words, i);
    DrawLinesAppend(g.closed, g.cur);
    RenderAppend([], words[i]);
  }

  lemma DrawLinesAppend(gs: seq<seq<string>>, g: seq<string>)
    ensures DrawLines(gs + [g]) == DrawLines(gs) + [Strip(Render(g))]
  {
    assert (gs + [g])[..|gs + [g]| - 1] == gs;
  }

  /** Words keep their original order: the lines, read one after the other, are the words. */
  lemma {:induction false} GroupKeepsOrder(words: seq<string>)
    ensures Flatten(Group(words).closed) + Group(words).cur == words
    decreases |words|
  {
    if words != [] {
      var p := Group(words[..|words| - 1]);
      var w := words[|words| - 1];
      GroupKeepsOrder(words[..|words| - 1]);
      if |Render(p.cur) + w + " "| < 21 {
        assert Flatten(p.closed) + (p.cur + [w]) == (Flatten(p.closed) + p.cur) + [w];
      } else {
        assert (p.closed + [p.cur])[..|p.closed + [p.cur]| - 1] == p.closed;
        assert Flatten(Group(words).closed) == Flatten(p.closed) + p.cur;
      }
      assert words == words[..|words| - 1] + [w];
    }
  }

  /**
   * A line fits: its rendering, trailing space included, is under 21
   * characters, unless it holds a single word too long to share a line.
   * After the first line no line is empty.
   */
  lemma {:induction false} GroupFits(words: seq<string>)
    ensures var g := Group(words);
      && (forall k :: 0 <= k < |g.closed| ==> |Render(g.closed[k])| < 21 || |g.closed[k]| == 1)
      && (|Render(g.cur)| < 21 || |g.cur| == 1)
      && (words != [] <==> g.cur != [])
      && (forall k :: 0 < k < |g.closed| ==> g.closed[k] != [])
    decreases |words|
  {
    if words != [] {
      var prefix := words[..|words| - 1];
      var p := Group(prefix);
      var w := words[|words| - 1];
      GroupFits(prefix);
      var g := Group(words);
      if |Render(p.cur) + w + " "| < 21 {
        RenderAppend(p.cur, w);
        assert g == Grouping(p.closed, p.cur + [w]);
      } else {
        assert Render([w]) == Render([]) + w + " " by { RenderAppend([], w); }
        assert g == Grouping(p.closed + [p.cur], [w]);
        forall k | 0 <= k < |g.closed|
          ensures (|Render(g.closed[k])| < 21 || |g.closed[k]| == 1) && (k > 0 ==> g.closed[k] != [])
        {
          if k < |p.closed| {
            assert g.closed[k] == p.closed[k];
          } else {
            assert g.closed[k] == p.cur;
            assert k > 0 ==> prefix != [];
          }
        }
      }
    }
  }

  /** The first word of the line that follows group `k`. */
  function NextFirst(g: Grouping, k: nat): string
    requires k < |g.closed| && NextNonEmpty(g, k)
  {
    if k + 1 < |g.closed| then g.closed[k + 1][0] else g.cur[0]
  }

  /** Group `k` is followed by a line that starts with a word. */
  ghost predicate NextNonEmpty(g: Grouping, k: nat)
    requires k < |g.closed|
  {
    (k + 1 < |g.closed| ==> g.closed[k + 1] != []) && (k + 1 == |g.closed| ==> g.cur != [])
  }

  /** The first word of the next line would not have fitted on line `k`. */
  ghost predicate GreedyAt(g: Grouping, k: nat)
    requires k < |g.closed|
  {
    NextNonEmpty(g, k) && |Render(g.closed[k]) + NextFirst(g, k) + " "| >= 21
  }

  /** The wrap is greedy: no finished line could have taken the next word. */
  lemma {:induction false} GroupGreedy(words: seq<string>)
    ensures forall k :: 0 <= k < |Group(words).closed| ==> GreedyAt(Group(words), k)
    decreases |words|
  {
    GroupFits(words);
    if words != [] {
      var p := Group(words[..|words| - 1]);
      var w := words[|words| - 1];
      GroupGreedy(words[..|words| - 1]);
      GroupFits(words[..|words| - 1]);
      var g := Group(words);
      if |Render(p.cur) + w + " "| < 21 {
        forall k | 0 <= k < |g.closed|
          ensures GreedyAt(g, k)
        {
          assert GreedyAt(p, k);
          if k + 1 == |g.closed| {
            assert (p.cur + [w])[0] == p.cur[0];
          }
        }
      } else {
        forall k | 0 <= k < |g.closed|
          ensures GreedyAt(g, k)
        {
          if k + 1 < |g.closed| {
            assert GreedyAt(p, k);
          }
        }
      }
    }
  }

  /** `strip()` never lengthens a string. */
  lemma StripShorter(s: string)
    ensures |Strip(s)| <= |s|
  {
  }

  /** The lines of a grouping whose lines of several words fit. */
  lemma LayoutLines(g: Grouping)
    requires forall k :: 0 <= k < |g.closed| ==> |Render(g.closed[k])| < 21 || |g.closed[k]| == 1
    ensures var lines := Layout(g);
      && |lines| == |g.closed| + (if g.cur == [] then 0 else 1)
      && (forall k :: 0 <= k < |g.closed| ==> lines[k] == Strip(Render(g.closed[k])))
      && (forall k :: 0 <= k < |g.closed| && |g.closed[k]| != 1 ==> |lines[k]| <= 20)
      && (g.cur != [] ==>
            var l := Strip(Render(g.cur));
            && lines[|lines| - 1] == (if |l| > 20 then l[..20] + "..." else l)
            && |lines[|lines| - 1]| <= 23)
  {
    forall k | 0 <= k < |g.closed|
      ensures Layout(g)[k] == Strip(Render(g.closed[k]))
      ensures |Strip(Render(g.closed[k]))| <= |Render(g.closed[k])|
    {
      DrawLinesAt(g.closed, k);
      StripShorter(Render(g.closed[k]));
    }
    if g.cur != [] {
      assert Render(g.cur) != [] by {
        assert g.cur == g.cur[..|g.cur| - 1] + [g.cur[|g.cur| - 1]];
        RenderAppend(g.cur[..|g.cur| - 1], g.cur[|g.cur| - 1]);
      }
    } else {
      assert Render(g.cur) == "";
    }
  }

  /**
   * The lines of the wrap: one per finished group, then the line being
   * filled if it is not empty, cut to 20 characters plus `...` when
   * longer; no line of several words exceeds 20 characters and the last
   * line never exceeds 23.
   */
  lemma WrapLines(text: string)
    ensures var g := Group(Words(text)); var lines := Wrap(text);
      && |lines| == |g.closed| + (if g.cur == [] then 0 else 1)
      && (forall k :: 0 <= k < |g.closed| ==> lines[k] == Strip(Render(g.closed[k])))
      && (forall k :: 0 <= k < |g.closed| && |g.closed[k]| != 1 ==> |lines[k]| <= 20)
      && (g.cur != [] ==>
            var l := Strip(Render(g.cur));
            && lines[|lines| - 1] == (if |l| > 20 then l[..20] + "..." else l)
            && |lines[|lines| - 1]| <= 23)
  {
    GroupFits(Words(text));
    LayoutLines(Group(Words(text)));
  }

  /**
   * A first word of 20 characters or more does not fit even on an empty
   * line, so the wrap starts with an empty line and puts that word on the
   * second.
   */
  lemma {:induction false} LongFirstWordLeavesBlankLine(words: seq<string>)
    requires words != [] && |words[0]| >= 20
    ensures Group(words).closed != [] && Group(words).closed[0] == []
    decreases |words|
  {
    if |words| == 1 {
      assert words[..0] == [];
    } else {
      assert words[..|words| - 1][0] == words[0];
      LongFirstWordLeavesBlankLine(words[..|words| - 1]);
    }
  }

  lemma BlankFirstLine(text: string)
    requires Words(text) != [] && |Words(text)[0]| >= 20
    ensures Wrap(text)[0] == ""
  {
    LongFirstWordLeavesBlankLine(Words(text));
    DrawLinesAt(Group(Words(text)).closed, 0);
    assert Strip(Render([])) == "";
  }

  // ---------------------------------------------------------------------
  // Properties of the retry schedule
  // ---------------------------------------------------------------------

  /**
   * The attempts at one broker, from attempt `n`: consecutive numbers, all
   * but the last failing with `OSError`, three in all unless one connects or
   * raises.
   */
  lemma {:induction false} BrokerRunShape(broker: string, probe: Probe, n: nat)
    requires 1 <= n <= MaxAttempts
    ensures var r := BrokerRun(broker, probe, n);
      && 1 <= |r| <= MaxAttempts + 1 - n
      && (forall i :: 0 <= i < |r| ==> r[i] == (broker, n + i))
      && (forall i :: 0 <= i < |r| - 1 ==> probe(r[i].0, r[i].1).OsError?)
      && (!Succeeded(r, probe) && !Crashed(r, probe) ==> |r| == MaxAttempts + 1 - n)
    decreases MaxAttempts - n
  {
    if probe(broker, n).OsError? && n < MaxAttempts {
      BrokerRunShape(broker, probe, n + 1);
    }
  }

  /**
   * `setup_mqtt()` tries the brokers in list order, attempt `i` going to
   * broker `i / 3` as its attempt number `i % 3 + 1`; every attempt but the
   * last failed with `OSError`, so it stops at the first success or uncaught
   * exception, and when there is neither every broker was tried three times.
   */
  lemma {:induction false} SetupRunShape(brokers: seq<string>, probe: Probe)
    ensures var run := SetupRun(brokers, probe);
      && |run| <= MaxAttempts * |brokers|
      && (forall i :: 0 <= i < |run| ==> run[i] == (brokers[i / 3], i % 3 + 1))
      && (forall i :: 0 <= i < |run| - 1 ==> probe(run[i].0, run[i].1).OsError?)
      && (!Succeeded(run, probe) && !Crashed(run, probe) ==> |run| == MaxAttempts * |brokers|)
    decreases |brokers|
  {
    if brokers != [] {
      var r := BrokerRun(brokers[0], probe, 1);
      BrokerRunShape(brokers[0], probe, 1);
      forall i | 0 <= i < |r|
        ensures r[i] == (brokers[i / 3], i % 3 + 1)
      {
        FirstThree(i);
      }
      if !Succeeded(r, probe) && !Crashed(r, probe) {
        var rest := SetupRun(brokers[1..], probe);
        SetupRunShape(brokers[1..], probe);
        ShapeAfterFailedBroker(brokers, r, rest, probe);
      }
    }
  }

  lemma FirstThree(i: nat)
    requires i < 3
    ensures i / 3 == 0 && i % 3 == i
  {
  }

  lemma Shift(i: nat)
    requires i >= 3
    ensures (i - 3) / 3 == i / 3 - 1 && (i - 3) % 3 == i % 3
  {
  }

  lemma ShapeAfterFailedBroker(brokers: seq<string>, r: seq<(string, nat)>, rest: seq<(string, nat)>, probe: Probe)
    requires brokers != [] && |r| == 3
    requires forall i :: 0 <= i < |r| ==> r[i] == (brokers[i / 3], i % 3 + 1)
    requires forall i :: 0 <= i < |r| ==> probe(r[i].0, r[i].1).OsError?
    requires |rest| <= MaxAttempts * |brokers[1..]|
    requires forall i :: 0 <= i < |rest| ==> rest[i] == (brokers[1..][i / 3], i % 3 + 1)
    requires forall i :: 0 <= i < |rest| - 1 ==> probe(rest[i].0, rest[i].1).OsError?
    requires !Succeeded(rest, probe) && !Crashed(rest, probe) ==> |rest| == MaxAttempts * |brokers[1..]|
    ensures var run := r + rest;
      && |run| <= MaxAttempts * |brokers|
      && (forall i :: 0 <= i < |run| ==> run[i] == (brokers[i / 3], i % 3 + 1))
      && (forall i :: 0 <= i < |run| - 1 ==> probe(run[i].0, run[i].1).OsError?)
      && (!Succeeded(run, probe) && !Crashed(run, probe) ==> |run| == MaxAttempts * |brokers|)
  {
    var run := r + rest;
    forall i | 3 <= i < |run|
      ensures run[i] == (brokers[i / 3], i % 3 + 1)
    {
      Shift(i);
      assert run[i] == rest[i - 3];
    }
    if rest != [] {
      assert run[|run| - 1] == rest[|rest| - 1];
    }
  }

  /**
   * After a failed attempt `n` the firmware pauses 3 s after the first
   * attempt and 4 s after the second, and never after the third; an
   * unreachable-host error also restarts the connection first.
   */
  lemma BackoffSchedule(broker: string, n: nat, unreachable: bool)
    requires 1 <= n <= MaxAttempts
    ensures n < MaxAttempts ==>
      AttemptEvents(broker, n, OsError(unreachable)) == [Try(broker, n)] + (if unreachable then [Restart] else []) + [Backoff(n + 2)]
    ensures n == MaxAttempts ==>
      forall i :: 0 <= i < |AttemptEvents(broker, n, OsError(unreachable))| ==> !AttemptEvents(broker, n, OsError(unreachable))[i].Backoff?
  {
    if n == 2 {
      assert Pow2(1) == 2;
    }
  }

  // ---------------------------------------------------------------------
  // The firmware's globals as an object
  // ---------------------------------------------------------------------

  class Firmware {
    var openUntil: int
    var message: Option<string>
    var connected: bool
    ghost var events: seq<Event>

    function State(): VoiceState
      reads this
    {
      VoiceState(openUntil, message, connected)
    }

    /** The servo sits where the deadline says, and was only ever sent angles it accepts. */
    ghost predicate Valid()
      reads this
    {
      LastServo(events) == Some(ServoPos(openUntil)) && AnglesInRange(events)
    }

    /**
     * The globals before the start-up. `Valid()` does not hold yet: where the
     * servo sits is unknown until `Boot` sends it to the closed angle.
     */
    constructor ()
      ensures openUntil == 0 && message == None && !connected && events == []
    {
      openUntil := 0;
      message := None;
      connected := false;
      events := [];
    }

    /**
     * Start-up: `setup_mqtt()`, then the servo is moved to the closed angle.
     * `running` is false when an exception escaped `setup_mqtt()`, which ends
     * the program before the servo is moved.
     */
    method Boot(brokers: seq<string>, probe: Probe) returns (running: bool)
      requires openUntil == 0 && message == None && events == []
      modifies this
      ensures running == !SetupRaises(brokers, probe)
      ensures openUntil == 0 && message == None
      ensures events == SetupTrace(brokers, probe) + (if running then [ServoTo(ClosedAngle)] else [])
      ensures running ==> Valid() && connected == SetupUp(brokers, probe)
      ensures !running ==> connected == SetupFlag(old(connected), brokers, probe)
    {
      ghost var before := connected;
      var raised := SetupMqtt(brokers, probe);
      if raised {
        return false;
      }
      assert events == SetupTrace(brokers, probe);
      ServoAngle(ClosedAngle);
      assert events == SetupTrace(brokers, probe) + [ServoTo(ClosedAngle)];
      BootLog(brokers, probe);
      SetupFlagIsUp(before, brokers, probe);
      running := true;
    }

    /** `servo_angle(angle)` */
    method ServoAngle(angle: int)
      modifies this`events
      ensures events == old(events) + ServoEffect(angle)
    {
      if 0 <= angle <= 180 {
        events := events + [ServoTo(angle)];
      }
    }

    /** `mqtt_callback(topic, msg)` at time `now`. */
    method MqttCallback(msg: string, now: nat)
      requires Valid()
      modifies this
      ensures Valid()
      ensures State() == Receive(old(State()), msg, now).state
      ensures events == old(events) + Receive(old(State()), msg, now).effects
    {
      Handle(ParseVoice(msg), now);
    }

    /** The branch of `mqtt_callback` that the parsed command takes. */
    method Handle(c: VoiceCommand, now: nat)
      requires Valid()
      modifies this
      ensures Valid()
      ensures State() == Apply(old(State()), c, now).state
      ensures events == old(events) + Apply(old(State()), c, now).effects
    {
      CommandServo(State(), c, now);
      match c
      case Trigger =>
        message := Some(AskText);
      case NameGiven(name) =>
        if name in Whitelist.Names {
          message := Some(OpenedText(name));
          LastServoAppend(events, ServoEffect(OpenAngle));
          ServoAngle(OpenAngle);
          openUntil := now + OpenMs;
        } else {
          message := Some(DeniedText);
        }
      case Other(text) =>
        message := Some(text);
    }

    /** The auto-close block of the main loop at time `now`. */
    method AutoClose(now: nat)
      requires Valid()
      modifies this
      ensures Valid()
      ensures State() == Tick(old(State()), now).state
      ensures events == old(events) + Tick(old(State()), now).effects
    {
      if openUntil != 0 && now - openUntil > 0 {
        LastServoAppend(events, ServoEffect(ClosedAngle));
        ServoAngle(ClosedAngle);
        openUntil := 0;
      }
    }

    /** `draw_package_text(text)`: the word-wrap loop that builds `lines`. */
    static method WrapText(text: string) returns (lines: seq<string>)
      ensures lines == Wrap(text)
    {
      var words := Words(text);
      lines := [];
      var line := "";
      ghost var g := Group([]);
      for i := 0 to |words|
        invariant g == Group(words[..i])
        invariant lines == DrawLines(g.closed)
        invariant line == Render(g.cur)
      {
        var testLine := line + words[i] + " ";
        if |testLine| < 21 {
          WrapJoin(words, i, g, line);
          line := testLine;
          g := Grouping(g.closed, g.cur + [words[i]]);
        } else {
          WrapBreak(words, i, g, lines, line);
          lines := lines + [Strip(line)];
          line := words[i] + " ";
          g := Grouping(g.closed + [g.cur], [words[i]]);
        }
      }
      assert words[..|words|] == words;
      assert Wrap(text) == DrawLines(g.closed) + (if line != "" then [Ellipsize(Strip(line))] else []);
      if line != "" {
        var l := Strip(line);
        lines := lines + [if |l| > 20 then l[..20] + "..." else l];
      }
    }

    /** `draw_package_text(text)`: the lines it draws, the first three of the wrap. */
    static method DrawPackageText(text: string) returns (shown: seq<string>)
      ensures shown == Visible(Wrap(text))
    {
      var lines := WrapText(text);
      shown := lines[..if |lines| < 3 then |lines| else 3];
    }

    /** The display block of the main loop. */
    method ShowMessage()
      requires Valid()
      modifies this
      ensures Valid()
      ensures State() == Show(old(State())).state
      ensures events == old(events) + Show(old(State())).effects
    {
      if message.Some? && message.value != [] {
        var m := message.value;
        ghost var s := State();
        ghost var t := Show(s);
        assert t.effects == [Displayed(Visible(Wrap(m)), Duration(m))] + (if connected then [Published(AckText)] else []);
        ShowServo(s);
        ValidStep(events, s, t);
        var duration := if |m| / 20 + 2 > 3 then |m| / 20 + 2 else 3;
        var shown := DrawPackageText(m);
        ghost var pre := events;
        events := events + [Displayed(shown, duration)];
        if connected {
          events := events + [Published(AckText)];
        }
        assert events == pre + t.effects;
        message := None;
        assert State() == t.state;
      }
    }

    /**
     * `connect_to_broker(broker)`: up to three attempts with a pause after
     * each `OSError` but the last; `raised` when another exception leaves it.
     */
    method ConnectToBroker(broker: string, probe: Probe) returns (ok: bool, raised: bool)
      modifies this`events, this`connected
      ensures ok == BrokerUp(broker, probe, 1)
      ensures raised == BrokerRaises(broker, probe, 1)
      ensures events == old(events) + BrokerTrace(broker, probe, 1)
      ensures connected == ConnectedFrom(old(connected), broker, probe, 1)
    {
      for attempt := 1 to MaxAttempts + 1
        invariant attempt <= MaxAttempts ==> old(events) + BrokerTrace(broker, probe, 1) == events + BrokerTrace(broker, probe, attempt)
        invariant attempt <= MaxAttempts ==> BrokerUp(broker, probe, 1) == BrokerUp(broker, probe, attempt)
        invariant attempt <= MaxAttempts ==> BrokerRaises(broker, probe, 1) == BrokerRaises(broker, probe, attempt)
        invariant attempt <= MaxAttempts ==> ConnectedFrom(old(connected), broker, probe, 1) == ConnectedFrom(connected, broker, probe, attempt)
        invariant attempt > MaxAttempts ==> events == old(events) + BrokerTrace(broker, probe, 1)
        invariant attempt > MaxAttempts ==> !BrokerUp(broker, probe, 1) && !BrokerRaises(broker, probe, 1)
        invariant attempt > MaxAttempts ==> connected == ConnectedFrom(old(connected), broker, probe, 1)
      {
        ghost var pre := events;
        ghost var rest := if !probe(broker, attempt).OsError? || attempt == MaxAttempts then [] else BrokerTrace(broker, probe, attempt + 1);
        assert BrokerTrace(broker, probe, attempt) == AttemptEvents(broker, attempt, probe(broker, attempt)) + rest;
        var up, crash := TryConnect(broker, attempt, probe);
        Assoc(pre, AttemptEvents(broker, attempt, probe(broker, attempt)), rest);
        if up {
          return true, false;
        }
        if crash {
          return false, true;
        }
      }
      return false, false;
    }

    /** One pass of the try block in `connect_to_broker`, with its `except OSError` branch. */
    method TryConnect(broker: string, attempt: nat, probe: Probe) returns (up: bool, raised: bool)
      requires 1 <= attempt
      modifies this`events, this`connected
      ensures up == probe(broker, attempt).Connected?
      ensures raised == probe(broker, attempt).Raised?
      ensures events == old(events) + AttemptEvents(broker, attempt, probe(broker, attempt))
      ensures connected == match probe(broker, attempt)
                           case Connected => true
                           case OsError(u) => if u then false else old(connected)
                           case Raised => old(connected)
    {
      var outcome := probe(broker, attempt);
      events := events + [Try(broker, attempt)];
      match outcome
      case Connected =>
        events := events + [Subscribed(broker)];
        connected := true;
        return true, false;
      case Raised =>
        return false, true;
      case OsError(unreachable) =>
        if unreachable {
          events := events + [Restart];
          connected := false;
        }
        if attempt < MaxAttempts {
          events := events + [Backoff(Pow2(attempt - 1) + 2)];
        }
        return false, false;
    }

    /**
     * `setup_mqtt()`: the brokers of `MQTT_BROKERS` in list order until one
     * connects or raises; `raised` when an exception leaves it.
     */
    method SetupMqtt(brokers: seq<string>, probe: Probe) returns (raised: bool)
      modifies this`events, this`connected
      ensures raised == SetupRaises(brokers, probe)
      ensures events == old(events) + SetupTrace(brokers, probe)
      ensures connected == SetupFlag(old(connected), brokers, probe)
    {
      for i := 0 to |brokers|
        invariant old(events) + SetupTrace(brokers, probe) == events + SetupTrace(brokers[i..], probe)
        invariant SetupRaises(brokers, probe) == SetupRaises(brokers[i..], probe)
        invariant SetupFlag(old(connected), brokers, probe) == SetupFlag(connected, brokers[i..], probe)
      {
        assert brokers[i..][0] == brokers[i];
        assert brokers[i..][1..] == brokers[i + 1..];
        ghost var pre := events;
        ghost var rest := if BrokerFails(brokers[i], probe) then SetupTrace(brokers[i + 1..], probe) else [];
        assert SetupTrace(brokers[i..], probe) == BrokerTrace(brokers[i], probe, 1) + rest;
        var ok, crash := ConnectToBroker(brokers[i], probe);
        Assoc(pre, BrokerTrace(brokers[i], probe, 1), rest);
        if ok || crash {
          UpExcludesRaise(brokers[i], probe, 1);
          return crash;
        }
      }
      assert brokers[|brokers|..] == [];
      connected := false;
      return false;
    }
  }
}
