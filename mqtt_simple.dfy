/**
 * The packet-building half of the small MQTT client the actuator firmware
 * ships (`MQTTClient` in test/wokwi/simple.py): the fixed header with its
 * Remaining Length bytes, the PUBLISH / SUBSCRIBE / UNSUBSCRIBE packets and
 * their packet identifiers, and the hand-off of received messages.
 *
 * The Remaining Length is modelled as the code computes it, which is NOT
 * the encoding of section 2.2.3 of the MQTT 3.1.1 standard: the code emits
 * the base-128 digits most significant first, and no byte at all for 0.
 * `CodeReversesStandardEncoding` states the exact relation.
 */
module MqttSimple {
  import opened Base

  /** Longest payload `_pack_msg` accepts. */
  const MaxRemaining: nat := 0xFFFFF

  const PingReqHeader: byte := 0xC0
  const DisconnectHeader: byte := 0xE0
  const SubscribeHeader: byte := 0x82
  const UnsubscribeHeader: byte := 0xA2

  datatype MqttError =
    | MessageTooLong      // MQTTException("Message too long")
    | QosTwoUnsupported   // MQTTException("QoS 2 not supported")
    | QosOutOfRange       // the `assert 0 <= qos <= 2` of subscribe
    | PackedIdTooLarge    // struct.error: a packet id or QoS that does not fit "!H"

  datatype Result<T> = Ok(value: T) | Err(error: MqttError)

  /**
   * How a call goes on once its packet is written. `Returned`: it returns to
   * its caller. `AwaitsAck(id)`: it calls `wait_msg()` until `pid_status[id]`
   * is non-zero; this client never records a non-zero status (see
   * `Client.Valid`) and `wait_msg` itself only loops or raises, so such a
   * call blocks or ends with the exception `wait_msg` raises, and never
   * returns normally.
   */
  datatype Completion = Returned | AwaitsAck(id: int)

  // ---------------------------------------------------------------------
  // The Remaining Length bytes
  // ---------------------------------------------------------------------

  /** The base-128 digits of `n`, most significant first; none for 0. */
  function Digits(n: nat): (d: seq<nat>)
    ensures forall i :: 0 <= i < |d| ==> d[i] < 128
    ensures n > 0 ==> |d| > 0 && d[0] > 0
    ensures n == 0 ==> d == []
  {
    if n == 0 then [] else Digits(n / 128) + [n % 128]
  }

  /** The number a sequence of base-128 digits stands for, most significant first. */
  function DigitsValue(d: seq<nat>): nat {
    if d == [] then 0 else DigitsValue(d[..|d| - 1]) * 128 + d[|d| - 1]
  }

  function Pow128(k: nat): nat {
    if k == 0 then 1 else 128 * Pow128(k - 1)
  }

  /**
   * The Remaining Length bytes of a packet whose payload has `n` bytes, as
   * `_pack_msg` emits them: one byte per base-128 digit, most significant
   * digit first, bit 0x80 set on every byte except the first.
   */
  function LengthBytes(n: nat): (b: seq<byte>) {
    var d := Digits(n);
    seq(|d|, i requires 0 <= i < |d| => if i == 0 then d[i] else d[i] + 128)
  }

  /** Reads length bytes back: the low seven bits of each byte, in output order, as base-128 digits. */
  function DecodeLength(b: seq<byte>): nat {
    DigitsValue(seq(|b|, i requires 0 <= i < |b| => b[i] % 128))
  }

  /** A whole packet: the header byte, the Remaining Length bytes, the payload unchanged. */
  function Packet(cmd: byte, data: seq<byte>): seq<byte> {
    [cmd] + LengthBytes(|data|) + data
  }

  lemma {:induction false} DigitsRoundTrip(n: nat)
    ensures DigitsValue(Digits(n)) == n
    decreases n
  {
    if n > 0 {
      var d := Digits(n);
      assert d[..|d| - 1] == Digits(n / 128);
      DigitsRoundTrip(n / 128);
    }
  }

  lemma {:induction false} DigitsCount(n: nat, k: nat)
    requires n < Pow128(k)
    ensures |Digits(n)| <= k
    decreases k
  {
    if n > 0 {
      assert k > 0;
      DigitsCount(n / 128, k - 1);
    }
  }

  /**
   * The Remaining Length bytes: none for an empty payload; otherwise the
   * first has bit 0x80 clear and every later one has it set; the low seven
   * bits, in output order, are the base-128 digits of the length, most
   * significant first; and a length the code accepts needs at most three.
   */
  lemma LengthBytesShape(n: nat)
    ensures var b := LengthBytes(n);
      && (|b| == 0 <==> n == 0)
      && (n > 0 ==> b[0] < 0x80)
      && (forall i :: 1 <= i < |b| ==> b[i] >= 0x80)
      && |b| == |Digits(n)|
      && (forall i :: 0 <= i < |b| ==> b[i] % 128 == Digits(n)[i])
      && (n <= MaxRemaining ==> |b| <= 3)
  {
    if n <= MaxRemaining {
      assert Pow128(3) == 2097152;
      DigitsCount(n, 3);
    }
  }

  /** Reading the low seven bits back, most significant first, gives the payload length. */
  lemma LengthBytesDecode(n: nat)
    ensures DecodeLength(LengthBytes(n)) == n
  {
    var b := LengthBytes(n);
    assert seq(|b|, i requires 0 <= i < |b| => b[i] % 128) == Digits(n);
    DigitsRoundTrip(n);
  }

  // ---------------------------------------------------------------------
  // The relation to section 2.2.3 of MQTT 3.1.1
  // ---------------------------------------------------------------------

  /**
   * The Remaining Length encoding of section 2.2.3 of MQTT 3.1.1: least
   * significant group first, bit 0x80 on every byte but the last, and a
   * single 0x00 for length 0.
   */
  function StandardRemainingLength(n: nat): seq<byte>
    decreases n
  {
    if n / 128 > 0 then [n % 128 + 128] + StandardRemainingLength(n / 128) else [n % 128]
  }

  /**
   * What the loop of `_pack_msg` has built before the reversal: digits least
   * significant first, bit 0x80 set on every byte after which more follow.
   */
  function LsbFirst(n: nat): seq<byte>
    decreases n
  {
    if n == 0 then [] else [n % 128 + (if n / 128 > 0 then 128 else 0)] + LsbFirst(n / 128)
  }

  /** The last element first. */
  function Reverse<T>(s: seq<T>): (r: seq<T>)
    ensures |r| == |s|
  {
    if s == [] then [] else [s[|s| - 1]] + Reverse(s[..|s| - 1])
  }

  lemma {:induction false} ReverseAt<T>(s: seq<T>, i: nat)
    requires i < |s|
    ensures Reverse(s)[i] == s[|s| - 1 - i]
    decreases |s|
  {
    if i > 0 {
      ReverseAt(s[..|s| - 1], i - 1);
    }
  }

  lemma {:induction false} ReverseCons<T>(x: T, s: seq<T>)
    ensures Reverse([x] + s) == Reverse(s) + [x]
  {
    var r, t := Reverse([x] + s), Reverse(s) + [x];
    forall i | 0 <= i < |r| ensures r[i] == t[i] {
      ReverseAt([x] + s, i);
      if i < |s| { ReverseAt(s, i); }
    }
  }

  lemma {:induction false} LsbFirstIsStandard(n: nat)
    requires n > 0
    ensures LsbFirst(n) == StandardRemainingLength(n)
    decreases n
  {
    if n / 128 > 0 { LsbFirstIsStandard(n / 128); }
  }

  lemma {:induction false} ReversedLsbFirst(n: nat)
    ensures Reverse(LsbFirst(n)) == LengthBytes(n)
    decreases n
  {
    if n > 0 {
      var x: byte := n % 128 + (if n / 128 > 0 then 128 else 0);
      ReverseCons(x, LsbFirst(n / 128));
      ReversedLsbFirst(n / 128);
      var d, e := Digits(n), Digits(n / 128);
      assert d == e + [n % 128];
      assert |e| == 0 <==> n / 128 == 0;
      var lhs, rhs := LengthBytes(n), LengthBytes(n / 128) + [x];
      assert |lhs| == |rhs|;
      forall i | 0 <= i < |lhs| ensures lhs[i] == rhs[i] {
        if i < |e| { assert d[i] == e[i]; }
        else { assert i == |e| && d[i] == n % 128; }
      }
      assert lhs == rhs;
      assert LsbFirst(n) == [x] + LsbFirst(n / 128);
    }
  }

  /**
   * The code's bytes are the standard encoding reversed; for length 0 the
   * code emits nothing where the standard has one 0x00 byte.
   */
  lemma CodeReversesStandardEncoding(n: nat)
    ensures n > 0 ==> LengthBytes(n) == Reverse(StandardRemainingLength(n))
    ensures LengthBytes(0) == [] && StandardRemainingLength(0) == [0]
  {
    if n > 0 {
      LsbFirstIsStandard(n);
      ReversedLsbFirst(n);
    }
  }

  /** PINGREQ and DISCONNECT go out as a single byte, without the 0x00 length byte the standard requires. */
  lemma ZeroLengthFrames()
    ensures Packet(PingReqHeader, []) == [0xC0]
    ensures Packet(DisconnectHeader, []) == [0xE0]
  {
  }

  // ---------------------------------------------------------------------
  // Building packets
  // ---------------------------------------------------------------------

  /** `bytearray.reverse()`: reverses the array in place. */
  method ReverseBytes(a: array<byte>)
    modifies a
    ensures a[..] == Reverse(old(a[..]))
  {
    var lo, hi := 0, a.Length;
    while lo + 1 < hi
      invariant 0 <= lo <= hi <= a.Length && lo + hi == a.Length
      invariant forall k :: 0 <= k < lo ==> a[k] == old(a[a.Length - 1 - k])
      invariant forall k :: hi <= k < a.Length ==> a[k] == old(a[a.Length - 1 - k])
      invariant forall k :: lo <= k < hi ==> a[k] == old(a[k])
      decreases hi - lo
    {
      a[lo], a[hi - 1] := a[hi - 1], a[lo];
      lo, hi := lo + 1, hi - 1;
    }
    forall k | 0 <= k < a.Length ensures a[..][k] == Reverse(old(a[..]))[k] {
      ReverseAt(old(a[..]), k);
    }
  }

  /**
   * `_pack_msg`: refuses a payload longer than 0xFFFFF bytes, otherwise
   * returns the header byte, the Remaining Length bytes and the payload.
   */
  method PackMsg(cmd: byte, data: seq<byte>) returns (r: Result<seq<byte>>)
    ensures |data| > MaxRemaining ==> r == Err(MessageTooLong)
    ensures |data| <= MaxRemaining ==> r == Ok(Packet(cmd, data))
  {
    var remaining: nat := |data|;
    if remaining > MaxRemaining {
      return Err(MessageTooLong);
    }
    var encoded: seq<byte> := [];
    while remaining > 0
      invariant encoded + LsbFirst(remaining) == LsbFirst(|data|)
      decreases remaining
    {
      encoded := encoded + [remaining % 128];
      remaining := remaining / 128;
      if remaining > 0 {
        encoded := encoded[|encoded| - 1 := encoded[|encoded| - 1] + 128];
      }
    }
    var buf := new byte[|encoded|](i requires 0 <= i < |encoded| => encoded[i]);
    assert buf[..] == LsbFirst(|data|);
    ReverseBytes(buf);
    ReversedLsbFirst(|data|);
    r := Ok([cmd] + buf[..] + data);
  }

  /** `struct.pack("!H", v)`: two bytes, big-endian; `struct.error` outside 0..65535. */
  function PackU16(v: int): (r: Option<seq<byte>>)
    ensures r.Some? <==> 0 <= v < 0x10000
    ensures r.Some? ==> |r.value| == 2 && r.value[0] as int * 256 + r.value[1] as int == v
  {
    if 0 <= v < 0x10000 then Some([v / 256, v % 256]) else None
  }

  /**
   * The PUBLISH fixed-header byte: packet type 3 in the high nibble, DUP
   * clear, QoS 1 in bits 1-2 only for `qos == 1`, RETAIN in bit 0. Any
   * other `qos` value is sent as QoS 0 (section 3.3.1 of MQTT 3.1.1).
   */
  function PublishHeader(retain: bool, qos: int): (h: byte)
    ensures h / 16 == 3
    ensures (h / 8) % 2 == 0
    ensures (h / 2) % 4 == (if qos == 1 then 1 else 0)
    ensures h % 2 == 1 <==> retain
  {
    0x30 + (if retain then 0x01 else 0) + (if qos == 1 then 0x02 else 0)
  }

  /** The header flags of SUBSCRIBE and UNSUBSCRIBE are the 0010 that sections 3.8.1 and 3.10.1 fix. */
  lemma SubscribeHeaders()
    ensures SubscribeHeader / 16 == 8 && SubscribeHeader % 16 == 2
    ensures UnsubscribeHeader / 16 == 10 && UnsubscribeHeader % 16 == 2
    ensures PingReqHeader / 16 == 12 && DisconnectHeader / 16 == 14
  {
  }

  /**
   * The client object. `topic` arguments are the UTF-8 bytes of the topic
   * (`topic.encode("utf-8")`); the socket is replaced by the ghost log
   * `written` of the packets handed to `_write`, and the callback by the ghost
   * log `delivered` of the messages handed to it.
   */
  class Client {
    const server: string
    const port: int
    const ssl: bool
    var nextMid: int
    var pidStatus: map<int, int>
    var outMessages: seq<(string, seq<byte>)>
    var hasCallback: bool
    ghost var written: seq<seq<byte>>
    ghost var delivered: seq<(string, seq<byte>)>
    /** The packet identifiers handed out so far, in order. */
    ghost var issued: seq<int>

    /**
     * Packet identifiers are handed out in strictly increasing order from 2,
     * every id `pid_status` records was handed out, and every recorded status
     * is still 0: nothing in the client acknowledges a packet.
     */
    ghost predicate Valid()
      reads this
    {
      && nextMid >= 1
      && |issued| == nextMid - 1
      && (forall i :: 0 <= i < |issued| ==> issued[i] == i + 2)
      && (forall id :: id in pidStatus ==> 2 <= id <= nextMid && pidStatus[id] == 0)
    }

    /**
     * The condition under which `publish`, `subscribe` and `unsubscribe` call
     * `wait_msg()` once more: `msg_id not in pid_status or pid_status[msg_id] == 0`.
     */
    predicate Waiting(id: int)
      reads this
    {
      id !in pidStatus || pidStatus[id] == 0
    }

    /** `__init__`: port 0 stands for 8883 with SSL and 1883 without. */
    constructor (server: string, port: int, ssl: bool)
      ensures Valid()
      ensures this.server == server && this.ssl == ssl
      ensures this.port == (if port == 0 then (if ssl then 8883 else 1883) else port)
      ensures nextMid == 1 && pidStatus == map[] && outMessages == [] && !hasCallback
      ensures written == [] && delivered == [] && issued == []
    {
      this.server := server;
      this.port := if port == 0 then (if ssl then 8883 else 1883) else port;
      this.ssl := ssl;
      nextMid := 1;
      pidStatus := map[];
      outMessages := [];
      hasCallback := false;
      written := [];
      delivered := [];
      issued := [];
    }

    /** `set_callback(f)`: only whether `f` is truthy matters to `_notify`. */
    method SetCallback(present: bool)
      modifies this`hasCallback
      ensures hasCallback == present
    {
      hasCallback := present;
    }

    /** `_notify`: to the callback when one is set, otherwise queued on `_out_messages`. */
    method Notify(topic: string, msg: seq<byte>)
      modifies this`outMessages, this`delivered
      ensures hasCallback ==> delivered == old(delivered) + [(topic, msg)] && outMessages == old(outMessages)
      ensures !hasCallback ==> outMessages == old(outMessages) + [(topic, msg)] && delivered == old(delivered)
    {
      if hasCallback {
        delivered := delivered + [(topic, msg)];
      } else {
        outMessages := outMessages + [(topic, msg)];
      }
    }

    /** Takes the next packet identifier (`self._next_mid += 1`). */
    method NextId() returns (id: int)
      requires Valid()
      modifies this`nextMid, this`issued
      ensures Valid()
      ensures nextMid == old(nextMid) + 1 && id == nextMid
      ensures issued == old(issued) + [id] && id >= 2
      ensures forall i :: 0 <= i < |old(issued)| ==> old(issued)[i] < id
    {
      nextMid := nextMid + 1;
      id := nextMid;
      issued := issued + [id];
    }

    /** Hands a packet to the socket, or reports that `_pack_msg` refused it. */
    method Write(cmd: byte, data: seq<byte>) returns (r: Result<()>)
      modifies this`written
      ensures |data| <= MaxRemaining ==> r == Ok(()) && written == old(written) + [Packet(cmd, data)]
      ensures |data| > MaxRemaining ==> r == Err(MessageTooLong) && written == old(written)
    {
      var packet := PackMsg(cmd, data);
      match packet
      case Err(e) => r := Err(e);
      case Ok(bytes) =>
        written := written + [bytes];
        r := Ok(());
    }

    /**
     * `publish`. QoS 1 takes a fresh packet id and records it as pending
     * before anything is sent; QoS 2 is refused before anything changes; any
     * other QoS value is sent as QoS 0 and the call returns. A written QoS-1
     * packet leaves the call waiting for its acknowledgement.
     */
    method Publish(topic: seq<byte>, msg: seq<byte>, retain: bool, qos: int) returns (r: Result<Completion>)
      requires Valid()
      modifies this
      ensures Valid()
      ensures r.Ok? && r.value.AwaitsAck? ==> Waiting(r.value.id)
      ensures qos == 2 ==> r == Err(QosTwoUnsupported) && unchanged(this)
      ensures qos != 1 && qos != 2 ==>
        && nextMid == old(nextMid) && pidStatus == old(pidStatus) && issued == old(issued)
        && (var data := topic + msg;
            && (|data| <= MaxRemaining ==> r == Ok(Returned) && written == old(written) + [Packet(PublishHeader(retain, qos), data)])
            && (|data| > MaxRemaining ==> r == Err(MessageTooLong) && written == old(written)))
      ensures qos == 1 ==>
        && nextMid == old(nextMid) + 1 && issued == old(issued) + [nextMid]
        && pidStatus == old(pidStatus)[nextMid := 0]
        && (nextMid >= 0x10000 ==> r == Err(PackedIdTooLarge) && written == old(written))
        && (nextMid < 0x10000 ==>
              var data := PackU16(nextMid).value + topic + msg;
              && (|data| <= MaxRemaining ==> r == Ok(AwaitsAck(nextMid)) && written == old(written) + [Packet(PublishHeader(retain, 1), data)])
              && (|data| > MaxRemaining ==> r == Err(MessageTooLong) && written == old(written)))
      ensures outMessages == old(outMessages) && delivered == old(delivered) && hasCallback == old(hasCallback)
    {
      var msgId := 0;
      if qos == 1 {
        msgId := NextId();
        pidStatus := pidStatus[msgId := 0];
      } else if qos == 2 {
        return Err(QosTwoUnsupported);
      }
      var cmd := PublishHeader(retain, qos);
      var data;
      if qos == 1 {
        var id := PackU16(msgId);
        if id.None? {
          return Err(PackedIdTooLarge);
        }
        data := id.value + topic + msg;
      } else {
        data := topic + msg;
      }
      var w := Write(cmd, data);
      r := if w.Err? then Err(w.error) else if qos == 1 then Ok(AwaitsAck(msgId)) else Ok(Returned);
    }

    /**
     * `subscribe`: a QoS outside 0..2 fails its assertion before anything
     * changes; otherwise a fresh packet id, then id, QoS and topic in the
     * payload of a 0x82 packet, after which the call waits for its SUBACK.
     */
    method Subscribe(topic: seq<byte>, qos: int) returns (r: Result<Completion>)
      requires Valid()
      modifies this
      ensures Valid()
      ensures r.Ok? && r.value.AwaitsAck? ==> Waiting(r.value.id)
      ensures !(0 <= qos <= 2) ==> r == Err(QosOutOfRange) && unchanged(this)
      ensures 0 <= qos <= 2 ==>
        && nextMid == old(nextMid) + 1 && issued == old(issued) + [nextMid]
        && (nextMid >= 0x10000 ==> r == Err(PackedIdTooLarge) && written == old(written))
        && (nextMid < 0x10000 ==>
              var data := PackU16(nextMid).value + PackU16(qos).value + topic;
              && (|data| <= MaxRemaining ==> r == Ok(AwaitsAck(nextMid)) && written == old(written) + [Packet(SubscribeHeader, data)])
              && (|data| > MaxRemaining ==> r == Err(MessageTooLong) && written == old(written)))
      ensures pidStatus == old(pidStatus) && outMessages == old(outMessages)
      ensures delivered == old(delivered) && hasCallback == old(hasCallback)
    {
      if !(0 <= qos <= 2) {
        return Err(QosOutOfRange);
      }
      var msgId := NextId();
      var id := PackU16(msgId);
      if id.None? {
        return Err(PackedIdTooLarge);
      }
      var data := id.value + PackU16(qos).value + topic;
      var w := Write(SubscribeHeader, data);
      r := if w.Err? then Err(w.error) else Ok(AwaitsAck(msgId));
    }

    /**
     * `unsubscribe`: a fresh packet id, then id and topic in the payload of a
     * 0xA2 packet, after which the call waits for its UNSUBACK.
     */
    method Unsubscribe(topic: seq<byte>) returns (r: Result<Completion>)
      requires Valid()
      modifies this
      ensures Valid()
      ensures r.Ok? && r.value.AwaitsAck? ==> Waiting(r.value.id)
      ensures nextMid == old(nextMid) + 1 && issued == old(issued) + [nextMid]
      ensures nextMid >= 0x10000 ==> r == Err(PackedIdTooLarge) && written == old(written)
      ensures nextMid < 0x10000 ==>
        var data := PackU16(nextMid).value + topic;
        && (|data| <= MaxRemaining ==> r == Ok(AwaitsAck(nextMid)) && written == old(written) + [Packet(UnsubscribeHeader, data)])
        && (|data| > MaxRemaining ==> r == Err(MessageTooLong) && written == old(written))
      ensures pidStatus == old(pidStatus) && outMessages == old(outMessages)
      ensures delivered == old(delivered) && hasCallback == old(hasCallback)
    {
      var msgId := NextId();
      var id := PackU16(msgId);
      if id.None? {
        return Err(PackedIdTooLarge);
      }
      var data := id.value + topic;
      var w := Write(UnsubscribeHeader, data);
      r := if w.Err? then Err(w.error) else Ok(AwaitsAck(msgId));
    }
  }
}
