/**
 * The v1 methods as v2 commands.
 *
 * A request of the v1 driver is a method with named parameters. The v2 protocol
 * translates it to a command number and a protobuf message of small numbers. A
 * raw request brings its command and its bytes along.
 *
 * What is sent can be read back: the numbers of a motion command are those that
 * a decoder finds, also in the encoded bytes. And it always fits: no request but
 * a raw one comes near the payload limit of a frame.
 */
module Commands {
  import opened Crc
  import opened ByteArrays
  import opened AceProtocolV2
  import opened Protobuf

  /** A request, its parameters already defaulted. */
  datatype Request =
    | GetInfo | GetStatus | DiscoverDevice | GetTemp | GetFeedInfo | GetKeyState
    | StartFeedAssist(index: int, speed: int)
    | StopFeedAssist(index: int)
    | FeedFilament(index: int, length: int, speed: int)
    | UnwindFilament(index: int, length: int, speed: int)
    | StopFeedFilament(index: int)
    | UpdateFeedingSpeed(index: int, speed: int)
    | GetFilamentInfo(index: int)
    | Drying(temp: int, duration: int)
    | DryingStop
    | SetFanSpeed(speed: int)
    | FeedOrRollbackRaw(index: int, speed: int, length: int, mode: int)
    | SetRfidEnable(index: int, enable: bool)
    | SetDryTemp(temp: int)
    | SetValve(v1: bool, v2: bool)
    | SetFeedCheck(checkLength: int, errorLength: int)
    | SetFanRaw(speed: int, fan1: bool, fan2: bool)
    | DryingRaw(temp: int, duration: int, autoRoll: bool)
    | AssignDeviceId(uid1: int, uid2: int, uid3: int, deviceId: int)
    | Raw(cmd: int, payload: seq<byte>)
    | Unknown

  datatype Command = Command(cmd: int, payload: seq<byte>)

  const FEED_MODE_FEED := 0
  const FEED_MODE_ROLLBACK := 1
  const FEED_MODE_ASSIST := 2

  /** `_method_to_v2` */
  function MethodToV2(r: Request): Command {
    match r
    case GetInfo => Command(7, [])
    case GetStatus => Command(6, [])
    case DiscoverDevice => Command(0, [])
    case StartFeedAssist(slot, speed) =>
      Command(8, PbUint32(1, slot) + PbUint32(2, speed) + PbUint32(3, 0) + PbUint32(4, FEED_MODE_ASSIST))
    case StopFeedAssist(slot) => Command(9, PbUint32(1, slot))
    case FeedFilament(slot, length, speed) =>
      Command(8, PbUint32(1, slot) + PbUint32(2, speed) + PbUint32(3, length) + PbUint32(4, FEED_MODE_FEED))
    case UnwindFilament(slot, length, speed) =>
      Command(8, PbUint32(1, slot) + PbUint32(2, speed) + PbUint32(3, length) + PbUint32(4, FEED_MODE_ROLLBACK))
    case StopFeedFilament(slot) => Command(9, PbUint32(1, slot))
    case UpdateFeedingSpeed(slot, speed) => Command(10, PbUint32(1, slot) + PbUint32(2, speed))
    case GetFilamentInfo(slot) => Command(13, PbUint32(1, slot))
    case Drying(temp, duration) => Command(11, PbUint32(1, temp) + PbUint32(2, duration) + PbBool(3, true))
    case DryingStop => Command(11, PbUint32(1, 0) + PbUint32(2, 0))
    case SetFanSpeed(speed) => Command(71, PbUint32(1, speed) + PbBool(2, speed > 0) + PbBool(3, speed > 0))
    case FeedOrRollbackRaw(slot, speed, length, mode) =>
      Command(8, PbUint32(1, slot) + PbUint32(2, speed) + PbUint32(3, length) + PbUint32(4, mode))
    case GetTemp => Command(64, [])
    case GetFeedInfo => Command(76, [])
    case GetKeyState => Command(73, [])
    case SetRfidEnable(slot, enable) => Command(14, PbUint32(1, slot) + PbBool(2, enable))
    case SetDryTemp(temp) => Command(12, PbUint32(1, temp))
    case SetValve(v1, v2) => Command(66, PbBool(1, v1) + PbBool(2, v2))
    case SetFeedCheck(checkLength, errorLength) => Command(19, PbUint32(1, checkLength) + PbUint32(2, errorLength))
    case SetFanRaw(speed, f1, f2) => Command(71, PbUint32(1, speed) + PbBool(2, f1) + PbBool(3, f2))
    case DryingRaw(temp, duration, autoRoll) =>
      Command(11, PbUint32(1, temp) + PbUint32(2, duration) + PbBool(3, autoRoll))
    case AssignDeviceId(uid1, uid2, uid3, deviceId) =>
      Command(1, PbUint32(1, uid1) + PbUint32(2, uid2) + PbUint32(3, uid3) + PbUint32(4, deviceId))
    case Raw(cmd, payload) => Command(cmd, payload)
    case Unknown => Command(6, [])
  }

  /** The integer parameters of a request. */
  function Params(r: Request): seq<int> {
    match r
    case StartFeedAssist(i, s) => [i, s]
    case StopFeedAssist(i) => [i]
    case FeedFilament(i, l, s) => [i, l, s]
    case UnwindFilament(i, l, s) => [i, l, s]
    case StopFeedFilament(i) => [i]
    case UpdateFeedingSpeed(i, s) => [i, s]
    case GetFilamentInfo(i) => [i]
    case Drying(t, d) => [t, d]
    case SetFanSpeed(s) => [s]
    case FeedOrRollbackRaw(i, s, l, m) => [i, s, l, m]
    case SetRfidEnable(i, _) => [i]
    case SetDryTemp(t) => [t]
    case SetFeedCheck(c, e) => [c, e]
    case SetFanRaw(s, _, _) => [s]
    case DryingRaw(t, d, _) => [t, d]
    case AssignDeviceId(a, b, c, d) => [a, b, c, d]
    case _ => []
  }

  /** With 32-bit parameters, negative ones included, no request but a raw one can hit
      the payload limit: `encode_request` does not raise. */
  lemma PayloadFits(r: Request)
    requires !r.Raw?
    requires forall p | p in Params(r) :: p < 0x1_0000_0000
    ensures |MethodToV2(r).payload| <= 24 < MAX_PAYLOAD_LEN
  {
    hide PbUint32, PbBool, Varint;
    forall field: nat, value: int | field <= 4 && value < 0x1_0000_0000
      ensures |PbUint32(field, value)| <= 6
    {
      FieldFits(field, value);
    }
    forall field: nat, value: bool | field <= 4
      ensures |PbBool(field, value)| <= 2
    {
      FlagFits(field, value);
    }
    ParamsListed(r);
  }

  lemma ParamsListed(r: Request)
    ensures var ps := Params(r);
            && |ps| <= 4
            && (|ps| > 0 ==> ps[0] in ps) && (|ps| > 1 ==> ps[1] in ps)
            && (|ps| > 2 ==> ps[2] in ps) && (|ps| > 3 ==> ps[3] in ps)
  {
  }

  lemma FieldFits(field: nat, value: int)
    requires field <= 4 && value < 0x1_0000_0000
    ensures |PbUint32(field, value)| <= 6
  {
    assert Pow128(1) == 128 && Pow128(2) == 0x4000 && Pow128(3) == 0x20_0000 && Pow128(4) == 0x1000_0000;
    assert Pow128(5) == 0x8_0000_0000;
    VarintLength(8 * field, 1);
    VarintLength(value, 5);
  }

  lemma FlagFits(field: nat, value: bool)
    requires field <= 4
    ensures |PbBool(field, value)| <= 2
  {
    assert Pow128(1) == 128;
    VarintLength(8 * field, 1);
    VarintLength(if value then 1 else 0, 1);
  }

  /** The motor commands share one shape: slot, speed, length and mode in fields 1 to 4. */
  datatype Motion = Motion(slot: int, speed: int, length: int, mode: int)

  predicate IsMotion(r: Request) {
    r.StartFeedAssist? || r.FeedFilament? || r.UnwindFilament? || r.FeedOrRollbackRaw?
  }

  function MotionOf(r: Request): Motion
    requires IsMotion(r)
  {
    match r
    case StartFeedAssist(i, s) => Motion(i, s, 0, FEED_MODE_ASSIST)
    case FeedFilament(i, l, s) => Motion(i, s, l, FEED_MODE_FEED)
    case UnwindFilament(i, l, s) => Motion(i, s, l, FEED_MODE_ROLLBACK)
    case FeedOrRollbackRaw(i, s, l, m) => Motion(i, s, l, m)
  }

  /** What a device that decodes the payload reads: exactly the four numbers asked for. */
  lemma MotionIsRecoverable(r: Request)
    requires IsMotion(r)
    requires forall p | p in Params(r) :: p >= 0
    ensures var m, fields := MotionOf(r), Fields(MethodToV2(r).payload);
            && m.slot >= 0 && m.speed >= 0 && m.length >= 0 && m.mode >= 0
            && fields == [Field(1, Number(m.slot)), Field(2, Number(m.speed)),
                          Field(3, Number(m.length)), Field(4, Number(m.mode))]
  {
    hide PbUint32, Fields;
    var m := MotionOf(r);
    ParamsListed(r);
    FourFields(m);
  }

  lemma FourFields(m: Motion)
    requires m.slot >= 0 && m.speed >= 0 && m.length >= 0 && m.mode >= 0
    ensures Fields(PbUint32(1, m.slot) + PbUint32(2, m.speed) + PbUint32(3, m.length) + PbUint32(4, m.mode))
         == [Field(1, Number(m.slot)), Field(2, Number(m.speed)),
             Field(3, Number(m.length)), Field(4, Number(m.mode))]
  {
    hide PbUint32, Fields;
    var e1, e2, e3, e4 := Entry(1, m.slot), Entry(2, m.speed), Entry(3, m.length), Entry(4, m.mode);
    MessageRoundTrip([e1, e2, e3, e4]);
    var p1, p2, p3, p4 := PbUint32(1, m.slot), PbUint32(2, m.speed), PbUint32(3, m.length), PbUint32(4, m.mode);
    assert [e1, e2, e3, e4][1..] == [e2, e3, e4] && [e2, e3, e4][1..] == [e3, e4] && [e3, e4][1..] == [e4];
    assert Message([e4]) == p4;
    assert Message([e3, e4]) == p3 + p4;
    assert Message([e2, e3, e4]) == p2 + (p3 + p4);
    assert Message([e1, e2, e3, e4]) == p1 + (p2 + (p3 + p4)) == p1 + p2 + p3 + p4;
    assert NumberFields([e4]) == [Field(4, Number(m.mode))];
    assert NumberFields([e3, e4]) == [Field(3, Number(m.length)), Field(4, Number(m.mode))];
    assert NumberFields([e2, e3, e4])
        == [Field(2, Number(m.speed)), Field(3, Number(m.length)), Field(4, Number(m.mode))];
  }

  /** End to end: the bytes of an encoded motion command carry its payload where a
      receiver cuts it out, and that payload reads back as the motion asked for. */
  lemma MotionOnTheWire(id: int, r: Request)
    requires IsMotion(r)
    requires forall p | p in Params(r) :: 0 <= p < 0x1_0000_0000
    ensures var c, m := MethodToV2(r), MotionOf(r);
            && RequestFrame(id, c.cmd, c.payload).Valid()
            && var wire := RequestFrame(id, c.cmd, c.payload).Wire();
            && m.slot >= 0 && m.speed >= 0 && m.length >= 0 && m.mode >= 0
            && wire[5] == Low8(8)
            && Fields(wire[HEADER_LEN..|wire| - 3])
               == [Field(1, Number(m.slot)), Field(2, Number(m.speed)),
                   Field(3, Number(m.length)), Field(4, Number(m.mode))]
  {
    hide Fields, PbUint32, LoByte, HiByte, Low8, Kermit;
    PayloadFits(r);
    MotionIsRecoverable(r);
    var c := MethodToV2(r);
    var wire := RequestFrame(id, c.cmd, c.payload).Wire();
    assert wire[HEADER_LEN..|wire| - 3] == c.payload;
  }

  // ---- the command table ----------------------------------------------------------

  /** What a device is told: a command, and the numbers in fields 1, 2, 3 and so on. */
  datatype Order = Order(cmd: int, numbers: seq<int>)

  function Flag(b: bool): int {
    if b then 1 else 0
  }

  /** The protocol's table. A method nobody knows asks for the status. */
  function OrderOf(r: Request): Order
    requires !r.Raw?
  {
    match r
    case DiscoverDevice => Order(0, [])
    case AssignDeviceId(uid1, uid2, uid3, deviceId) => Order(1, [uid1, uid2, uid3, deviceId])
    case GetStatus => Order(6, [])
    case Unknown => Order(6, [])
    case GetInfo => Order(7, [])
    case FeedFilament(slot, length, speed) => Order(8, [slot, speed, length, 0])
    case UnwindFilament(slot, length, speed) => Order(8, [slot, speed, length, 1])
    case StartFeedAssist(slot, speed) => Order(8, [slot, speed, 0, 2])
    case FeedOrRollbackRaw(slot, speed, length, mode) => Order(8, [slot, speed, length, mode])
    case StopFeedFilament(slot) => Order(9, [slot])
    case StopFeedAssist(slot) => Order(9, [slot])
    case UpdateFeedingSpeed(slot, speed) => Order(10, [slot, speed])
    case Drying(temp, duration) => Order(11, [temp, duration, 1])
    case DryingRaw(temp, duration, autoRoll) => Order(11, [temp, duration, Flag(autoRoll)])
    case DryingStop => Order(11, [0, 0])
    case SetDryTemp(temp) => Order(12, [temp])
    case GetFilamentInfo(slot) => Order(13, [slot])
    case SetRfidEnable(slot, enable) => Order(14, [slot, Flag(enable)])
    case SetFeedCheck(checkLength, errorLength) => Order(19, [checkLength, errorLength])
    case GetTemp => Order(64, [])
    case SetValve(v1, v2) => Order(66, [Flag(v1), Flag(v2)])
    case SetFanSpeed(speed) => Order(71, [speed, Flag(speed > 0), Flag(speed > 0)])
    case SetFanRaw(speed, fan1, fan2) => Order(71, [speed, Flag(fan1), Flag(fan2)])
    case GetKeyState => Order(73, [])
    case GetFeedInfo => Order(76, [])
  }

  function EntriesFor(numbers: seq<int>): seq<Entry> {
    seq(|numbers|, i requires 0 <= i < |numbers| => Entry(i + 1, numbers[i]))
  }

  function Told(numbers: seq<nat>): seq<Field> {
    seq(|numbers|, i requires 0 <= i < |numbers| => Field(i + 1, Number(numbers[i])))
  }

  /** What a device reads from the payload of any request is the order in the table. */
  lemma RequestIsUnderstood(r: Request, numbers: seq<nat>)
    requires !r.Raw? && OrderOf(r).numbers == numbers
    ensures MethodToV2(r).cmd == OrderOf(r).cmd
    ensures Fields(MethodToV2(r).payload) == Told(numbers)
  {
    hide PbUint32, Fields, Message, NumberFields, OrderOf, MethodToV2;
    var entries := EntriesFor(numbers);
    PayloadIs(r);
    MessageRoundTrip(entries);
    NumberFieldsAre(entries);
  }

  lemma PayloadIs(r: Request)
    requires !r.Raw?
    ensures MethodToV2(r).payload == Message(EntriesFor(OrderOf(r).numbers)) && MethodToV2(r).cmd == OrderOf(r).cmd
  {
    hide PbUint32, PbBool, Message, EntriesFor;
    MessageOfFew(OrderOf(r).numbers);
    FlagsAreNumbers();
  }

  lemma FlagsAreNumbers()
    ensures forall field: nat, b: bool :: PbBool(field, b) == PbUint32(field, Flag(b))
  {
    hide Varint;
  }

  lemma MessageOfFew(v: seq<int>)
    requires |v| <= 4
    ensures Message(EntriesFor(v))
         == match |v|
            case 0 => []
            case 1 => PbUint32(1, v[0])
            case 2 => PbUint32(1, v[0]) + PbUint32(2, v[1])
            case 3 => PbUint32(1, v[0]) + PbUint32(2, v[1]) + PbUint32(3, v[2])
            case _ => PbUint32(1, v[0]) + PbUint32(2, v[1]) + PbUint32(3, v[2]) + PbUint32(4, v[3])
  {
    hide PbUint32, Message;
    var e := EntriesFor(v);
    MessageFrom(e, |v|);
    if |v| > 0 { MessageFrom(e, |v| - 1); }
    if |v| > 1 { MessageFrom(e, |v| - 2); }
    if |v| > 2 { MessageFrom(e, |v| - 3); }
    if |v| > 3 { MessageFrom(e, 0); }
    assert e[0..] == e;
  }

  lemma MessageFrom(e: seq<Entry>, i: nat)
    requires i <= |e|
    ensures Message(e[i..]) == if i == |e| then [] else PbUint32(e[i].num, e[i].value) + Message(e[i + 1..])
  {
    hide PbUint32;
    assert i < |e| ==> e[i..][1..] == e[i + 1..];
  }

  lemma {:induction false} NumberFieldsAre(entries: seq<Entry>)
    requires forall e | e in entries :: e.value >= 0
    ensures var fields := NumberFields(entries);
            && |fields| == |entries|
            && forall i | 0 <= i < |entries| ::
                 entries[i] in entries && fields[i] == Field(entries[i].num, Number(entries[i].value))
    decreases entries
  {
    if entries != [] {
      NumberFieldsAre(entries[1..]);
    }
  }
}
