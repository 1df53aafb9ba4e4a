/**
 * The guarded lock actuator of the ESP32 firmware (test/gemini/wokwi/main.py).
 * `mqtt_callback` reacts to commands on `package/chat`, the main loop closes
 * the box 15 seconds after it opened and shows pending messages on the OLED.
 * An open command while the box is open and a close command while it is
 * closed are ignored, so duplicated commands do not actuate twice.
 *
 * Time is the value of `utime.ticks_ms()` as a plain number of milliseconds;
 * the servo, the status publishes and the OLED are a ghost log of `Event`s.
 */
module GeminiLock {
  import opened Base
  import opened Text

  /** How long the box stays open without a `close_box` (`ticks_add(..., 15000)`). */
  const AutoCloseMs: nat := 15000

  datatype Event =
    | ServoOpen                       // servo_open(): duty 26
    | ServoClose                      // servo_close(): duty 123
    | Published(payload: string)      // mqtt_client.publish(b'package/status', payload)
    | Shown(lines: seq<string>)       // draw_text(lines[:3])

  /** The branch of `mqtt_callback` a command takes. */
  datatype Command = AskName | Name(name: string) | CloseBox | InvalidName | Ignored

  /** `msg.decode('utf-8').strip().lower()` */
  function Normalize(msg: string): string {
    Lower(Strip(msg))
  }

  /**
   * The manual capitalisation of the firmware: first character upper case,
   * the rest lower case, the empty name left empty. It agrees with Python's
   * `str.capitalize`.
   */
  function CapitalizeName(name: string): (r: string)
    ensures r == Capitalize(name)
  {
    if name == [] then name
    else if |name| > 1 then [UpperChar(name[0])] + Lower(name[1..])
    else [UpperChar(name[0])]
  }

  /**
   * Which branch a normalised command takes: a command that contains
   * `ask_name` anywhere asks for the name, even when it also starts with
   * `name:`; the name is what follows `name:`, stripped and capitalised.
   */
  function ParseCommand(command: string): Command {
    if Contains(command, "ask_name") then AskName
    else if StartsWith(command, "name:") then Name(CapitalizeName(Strip(command[5..])))
    else if command == "close_box" then CloseBox
    else if command == "invalid_name" then InvalidName
    else Ignored
  }

  function Parse(msg: string): Command {
    ParseCommand(Normalize(msg))
  }

  /** The firmware's globals that the lock logic reads and writes. */
  datatype LockState = LockState(
    boxIsOpen: bool,                  // box_is_open
    openUntil: int,                   // servo_open_until, 0 when no close is pending
    message: Option<seq<string>>,     // package_message, or None
    connected: bool)                  // mqtt_connected

  /** A transition: the new globals and the effects, in the order they happen. */
  datatype Step = Step(state: LockState, effects: seq<Event>)

  const AskNameLines: seq<string> := ["Paket atas nama", "siapa ya?"]
  const ThanksLines: seq<string> := ["Terima kasih!", "Kotak ditutup"]
  const InvalidLines: seq<string> := ["Maaf,", "Nama tidak terdaftar"]
  const TimeoutLines: seq<string> := ["Timeout!", "Kotak ditutup"]

  function OpenedLines(name: string): seq<string> {
    ["Selamat!", "Paket untuk " + name, "Kotak terbuka!"]
  }

  /** A status report, sent only while connected to the broker. */
  function Report(connected: bool, payload: string): seq<Event> {
    if connected then [Published(payload)] else []
  }

  /** The initial globals, right after the lock is initialised closed. */
  function Initial(connected: bool): LockState {
    LockState(false, 0, None, connected)
  }

  /** The branch of `mqtt_callback` that command `c` takes, at time `now`. */
  function Apply(s: LockState, c: Command, now: nat): Step {
    match c
    case AskName => Step(s.(message := Some(AskNameLines)), [])
    case Name(name) =>
      if s.boxIsOpen then Step(s, [])
      else Step(s.(boxIsOpen := true, openUntil := now + AutoCloseMs, message := Some(OpenedLines(name))),
                [ServoOpen] + Report(s.connected, "opened"))
    case CloseBox =>
      if !s.boxIsOpen then Step(s, [])
      else Step(s.(boxIsOpen := false, openUntil := 0, message := Some(ThanksLines)),
                [ServoClose] + Report(s.connected, "closed"))
    case InvalidName => Step(s.(message := Some(InvalidLines)), [])
    case Ignored => Step(s, [])
  }

  /** `mqtt_callback(topic, msg)` at time `now`. */
  function Receive(s: LockState, msg: string, now: nat): Step {
    Apply(s, Parse(msg), now)
  }

  /** Whether the auto-close block of the main loop fires at time `now`. */
  predicate Due(s: LockState, now: int) {
    s.boxIsOpen && s.openUntil != 0 && now - s.openUntil > 0
  }

  /** The auto-close block of the main loop at time `now`. */
  function Tick(s: LockState, now: nat): Step {
    if Due(s, now) then
      Step(s.(boxIsOpen := false, openUntil := 0, message := Some(TimeoutLines)),
           [ServoClose] + Report(s.connected, "closed"))
    else Step(s, [])
  }

  /**
   * The timeout block when its `closed` publish raises: the servo has closed
   * and `box_is_open` is cleared, but nothing around the block catches the
   * exception, so the program ends with the deadline still set and no
   * timeout message.
   */
  function TickRaising(s: LockState): Step {
    Step(s.(boxIsOpen := false), [ServoClose])
  }

  /** The display block of the main loop: a pending message is drawn once and cleared. */
  function Show(s: LockState): Step {
    if s.message.Some? && s.message.value != [] then
      var lines := s.message.value;
      Step(s.(message := None), [Shown(lines[..if |lines| < 3 then |lines| else 3])])
    else Step(s, [])
  }

  /** A pending close implies an open box. */
  predicate Inv(s: LockState) {
    s.openUntil != 0 ==> s.boxIsOpen
  }

  function Count(evs: seq<Event>, e: Event): nat {
    if evs == [] then 0 else Count(evs[..|evs| - 1], e) + (if evs[|evs| - 1] == e then 1 else 0)
  }

  lemma {:induction false} CountAppend(a: seq<Event>, b: seq<Event>, e: Event)
    ensures Count(a + b, e) == Count(a, e) + Count(b, e)
    decreases |b|
  {
    if b == [] {
      assert a + b == a;
    } else {
      assert (a + b)[..|a + b| - 1] == a + b[..|b| - 1];
      CountAppend(a, b[..|b| - 1], e);
    }
  }

  // ---------------------------------------------------------------------
  // Properties
  // ---------------------------------------------------------------------

  /** The invariant holds initially and is kept by every command, the auto-close and the display. */
  lemma InvariantKept(s: LockState, c: Command, now: nat)
    ensures Inv(Initial(s.connected))
    ensures Inv(s) ==> Inv(Apply(s, c, now).state) && Inv(Tick(s, now).state) && Inv(Show(s).state)
  {
  }

  /** A `name:` command while the box is open changes nothing and has no effect. */
  lemma OpenWhileOpenIgnored(s: LockState, name: string, now: nat)
    requires s.boxIsOpen
    ensures Apply(s, Name(name), now) == Step(s, [])
  {
  }

  /**
   * A `name:` command while the box is closed opens it, arms the close for
   * now + 15000 ms, and publishes `opened` exactly once if connected.
   */
  lemma OpenWhileClosed(s: LockState, name: string, now: nat)
    requires !s.boxIsOpen
    ensures var t := Apply(s, Name(name), now);
      && t.state.boxIsOpen && t.state.openUntil == now + AutoCloseMs
      && t.state.message == Some(OpenedLines(name)) && t.state.connected == s.connected
      && t.effects[0] == ServoOpen
      && Count(t.effects, ServoOpen) == 1
      && Count(t.effects, Published("opened")) == (if s.connected then 1 else 0)
      && Count(t.effects, ServoClose) == 0
  {
    CountAppend([ServoOpen], Report(s.connected, "opened"), ServoOpen);
    CountAppend([ServoOpen], Report(s.connected, "opened"), Published("opened"));
    CountAppend([ServoOpen], Report(s.connected, "opened"), ServoClose);
  }

  /**
   * `close_box` while closed changes nothing; while open it closes the servo,
   * clears the flag and the deadline, and publishes `closed` once if connected.
   */
  lemma CloseBehaviour(s: LockState, now: nat)
    ensures !s.boxIsOpen ==> Receive(s, "close_box", now) == Step(s, [])
    ensures s.boxIsOpen ==>
      var t := Receive(s, "close_box", now);
      && !t.state.boxIsOpen && t.state.openUntil == 0 && t.state.message == Some(ThanksLines)
      && t.effects == [ServoClose] + Report(s.connected, "closed")
  {
    CloseBoxParses();
  }

  lemma CloseBoxParses()
    ensures Parse("close_box") == CloseBox
  {
    var c := "close_box";
    StripClean(c);
    LowerOfLower(c);
    assert c[..8][0] != "ask_name"[0];
    assert c[1..][..8][0] != "ask_name"[0];
    TooShort(c[2..], "ask_name");
    assert c[..5][0] != "name:"[0];
  }

  /**
   * The auto-close fires exactly when the box is open, a close is pending and
   * its deadline has passed; afterwards the box is closed and nothing is
   * pending, so a second tick, at any later time, does nothing.
   */
  lemma AutoCloseOnce(s: LockState, now: nat, later: nat)
    ensures Tick(s, now).effects != [] <==> Due(s, now)
    ensures Due(s, now) ==>
      && !Tick(s, now).state.boxIsOpen && Tick(s, now).state.openUntil == 0
      && Tick(s, now).effects == [ServoClose] + Report(s.connected, "closed")
      && Tick(Tick(s, now).state, later) == Step(Tick(s, now).state, [])
  {
  }
  /**
   * A `closed` publish that raises ends the program in a state that breaks
   * `Inv`: the box is closed but the deadline is still set, and the message
   * is whatever it was before.
   */
  lemma RaisingTimeoutBreaksInv(s: LockState, now: nat)
    requires Due(s, now)
    ensures !Inv(TickRaising(s).state)
    ensures TickRaising(s).state.message == s.message && TickRaising(s).effects == [ServoClose]
  {
  }


  /**
   * Two `name:` commands with no close between them actuate the servo once
   * and publish `opened` at most once, even with a display step between them.
   */
  lemma DuplicateOpen(s: LockState, first: string, second: string, t1: nat, t2: nat)
    requires !s.boxIsOpen
    ensures var a := Apply(s, Name(first), t1);
      var b := Apply(Show(a.state).state, Name(second), t2);
      && b.effects == []
      && Count(a.effects + Show(a.state).effects + b.effects, ServoOpen) == 1
      && Count(a.effects + Show(a.state).effects + b.effects, Published("opened")) == (if s.connected then 1 else 0)
  {
    var a := Apply(s, Name(first), t1);
    var m := Show(a.state);
    OpenWhileClosed(s, first, t1);
    assert OpenedLines(first)[..3] == OpenedLines(first);
    assert m.effects == [Shown(OpenedLines(first))];
    var b := Apply(m.state, Name(second), t2);
    assert b.effects == [];
    CountAppend(a.effects, m.effects, ServoOpen);
    CountAppend(a.effects, m.effects, Published("opened"));
    assert a.effects + m.effects + b.effects == a.effects + m.effects;
  }

  /** `ask_name`, `invalid_name` and unknown commands never touch the lock, the servo or the broker. */
  lemma NonLockCommands(s: LockState, c: Command, now: nat)
    requires !c.Name? && !c.CloseBox?
    ensures var t := Apply(s, c, now);
      t.effects == [] && t.state.boxIsOpen == s.boxIsOpen && t.state.openUntil == s.openUntil
      && t.state.connected == s.connected
  {
  }

  /** A command containing `ask_name` asks for the name even when it starts with `name:`. */
  lemma AskNameWins(pre: string, post: string)
    ensures Parse("name:" + pre + "ask_name" + post) == AskName
  {
    var raw := "name:" + pre + "ask_name" + post;
    assert IsLower("ask_name");
    LowerOfLower("ask_name");
    var stripped := Strip(raw);
    // `strip` only removes white space, so the command still starts with a letter of "name:"
    assert TrimLeft(raw) == raw;
    var k := |TrimRight(raw)|;
    TrimRightSpec(raw);
    assert raw[|"name:" + pre + "ask_name"| - 1] == 'e';
    assert k >= |"name:" + pre + "ask_name"|;
    assert stripped == ("name:" + pre + "ask_name") + stripped[|"name:" + pre + "ask_name"|..];
    LowerAppend("name:" + pre, "ask_name");
    LowerAppend("name:" + pre + "ask_name", stripped[|"name:" + pre + "ask_name"|..]);
    ContainsInfix(Lower("name:" + pre), "ask_name", Lower(stripped[|"name:" + pre + "ask_name"|..]));
  }

  /**
   * A `name:` command carries its name through unchecked: this side has no
   * whitelist, and any clean lower-case name, even an empty one, is parsed
   * as an open request for that name, capitalised for the display.
   */
  lemma NameCommand(name: string)
    requires IsLower(name) && !Contains(name, "ask_name")
    requires name == [] || (!IsSpace(name[0]) && !IsSpace(name[|name| - 1]))
    ensures Parse("name:" + name) == Name(Capitalize(name))
  {
    var c := "name:" + name;
    NormalizeNameCommand(name, c);
    NoAskNameAfterPrefix(name, c);
    if name != [] {
      StripClean(name);
    }
    ParseNormalized(c);
    ParseNameBranch(name, c);
  }

  lemma ParseNormalized(c: string)
    requires Normalize(c) == c
    ensures Parse(c) == ParseCommand(c)
  {
  }

  lemma ParseNameBranch(name: string, c: string)
    requires c == "name:" + name && !Contains(c, "ask_name")
    ensures ParseCommand(c) == Name(CapitalizeName(Strip(name)))
  {
    assert StartsWith(c, "name:");
    assert c[5..] == name;
  }

  lemma NormalizeNameCommand(name: string, c: string)
    requires c == "name:" + name && IsLower(name)
    requires name == [] || !IsSpace(name[|name| - 1])
    ensures Normalize(c) == c
  {
    assert IsLower(c);
    LowerOfLower(c);
    StripClean(c);
  }

  lemma NoAskNameAfterPrefix(name: string, c: string)
    requires c == "name:" + name && !Contains(name, "ask_name")
    ensures !Contains(c, "ask_name")
  {
    forall j | 0 <= j < 5
      ensures !StartsWith(c[j..], "ask_name")
    {
      assert c[j..][4 - j] == ':';
      assert "ask_name"[4 - j] != ':';
    }
    assert c[5..] == name;
    NotContainsFrom(c, "ask_name", 5);
  }

  /** An empty name opens a closed box. */
  lemma EmptyNameOpens(s: LockState, now: nat)
    requires !s.boxIsOpen
    ensures Parse("name:") == Name("")
    ensures Receive(s, "name:", now).state.boxIsOpen
  {
    TooShort([], "ask_name");
    NameCommand([]);
    assert "name:" + [] == "name:";
  }

  // ---------------------------------------------------------------------
  // The firmware's globals as an object
  // ---------------------------------------------------------------------

  class Controller {
    var boxIsOpen: bool
    var openUntil: int
    var message: Option<seq<string>>
    var connected: bool
    ghost var events: seq<Event>

    function State(): LockState
      reads this
    {
      LockState(boxIsOpen, openUntil, message, connected)
    }

    ghost predicate Valid()
      reads this
    {
      Inv(State())
    }

    /**
     * Start-up: the globals of lines 101-105, the broker connection that
     * `setup_mqtt()` obtained (or not), then `servo_close()`.
     */
    constructor (connected: bool)
      ensures Valid() && State() == Initial(connected) && events == [ServoClose]
    {
      boxIsOpen := false;
      openUntil := 0;
      message := None;
      this.connected := connected;
      events := [ServoClose];
    }

    method SendStatus(payload: string)
      modifies this`events
      ensures events == old(events) + Report(connected, payload)
    {
      if connected {
        events := events + [Published(payload)];
      }
    }

    /** `mqtt_callback(topic, msg)` at time `now`. */
    method MqttCallback(msg: string, now: nat)
      requires Valid()
      modifies this
      ensures Valid()
      ensures State() == Receive(old(State()), msg, now).state
      ensures events == old(events) + Receive(old(State()), msg, now).effects
    {
      Handle(Parse(msg), now);
    }

    /** The branch of `mqtt_callback` that the parsed command takes. */
    method Handle(c: Command, now: nat)
      requires Valid()
      modifies this
      ensures Valid()
      ensures State() == Apply(old(State()), c, now).state
      ensures events == old(events) + Apply(old(State()), c, now).effects
    {
      match c
      case AskName =>
        message := Some(AskNameLines);
      case Name(name) =>
        if boxIsOpen {
          return;
        }
        message := Some(OpenedLines(name));
        events := events + [ServoOpen];
        boxIsOpen := true;
        openUntil := now + AutoCloseMs;
        SendStatus("opened");
      case CloseBox =>
        if !boxIsOpen {
          return;
        }
        events := events + [ServoClose];
        boxIsOpen := false;
        openUntil := 0;
        message := Some(ThanksLines);
        SendStatus("closed");
      case InvalidName =>
        message := Some(InvalidLines);
      case Ignored =>
    }

    /**
     * The auto-close block of the main loop at time `now`. `publishRaises`
     * says whether the `closed` publish raises; `running` is false when it
     * did, which ends the program.
     */
    method AutoClose(now: nat, publishRaises: bool) returns (running: bool)
      requires Valid()
      modifies this
      ensures running == !(Due(old(State()), now) && old(connected) && publishRaises)
      ensures running ==> Valid()
      ensures running ==> State() == Tick(old(State()), now).state
      ensures running ==> events == old(events) + Tick(old(State()), now).effects
      ensures !running ==> State() == TickRaising(old(State())).state
      ensures !running ==> events == old(events) + TickRaising(old(State())).effects
    {
      if boxIsOpen && openUntil != 0 && now - openUntil > 0 {
        events := events + [ServoClose];
        boxIsOpen := false;
        if connected && publishRaises {
          return false;
        }
        SendStatus("closed");
        openUntil := 0;
        message := Some(TimeoutLines);
      }
      return true;
    }

    /** The display block of the main loop. */
    method ShowMessage()
      requires Valid()
      modifies this
      ensures Valid()
      ensures State() == Show(old(State())).state
      ensures events == old(events) + Show(old(State())).effects
    {
      if message.Some? && message.value != [] {
        var lines := message.value;
        events := events + [Shown(lines[..if |lines| < 3 then |lines| else 3])];
        message := None;
      }
    }

    /** The outcome of a reconnection attempt or of a failed `check_msg`. */
    method SetConnected(up: bool)
      requires Valid()
      modifies this`connected
      ensures Valid() && connected == up
    {
      connected := up;
    }
  }
}
