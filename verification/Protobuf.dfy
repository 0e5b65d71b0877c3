/**
 * The protobuf subset spoken by v2 devices.
 *
 * A number is written in groups of seven bits, the lowest first, each but the
 * last with its top bit set. A field is a tag, the field number and the wire
 * type in one number, followed by its value. Of a number or a text that is cut
 * short the decoder takes what is there; a cut fixed-size value ends the message.
 *
 * Writing and reading back is the identity, for numbers, for number fields and
 * for messages of any number of them, whatever bytes follow.
 */
module Protobuf {
  import opened Crc
  import opened ByteArrays
  import opened Wrappers

  // ---- varints --------------------------------------------------------------

  /** `pb_varint`. A negative value, which the source does not reject, becomes one byte. */
  function Varint(value: int): (r: seq<byte>)
    ensures |r| > 0
    decreases if value > 127 then value else 0
  {
    if value > 127 then [Low8(value % 128 + 128)] + Varint(value / 128) else [Low8(value % 128)]
  }

  method PbVarint(value: int) returns (r: seq<byte>)
    ensures r == Varint(value)
  {
    hide Low8;
    r := [];
    var v := value;
    while v > 127
      invariant r + Varint(v) == Varint(value)
      decreases v
    {
      r := r + [Low8(v % 128 + 128)];
      v := v / 128;
    }
    r := r + [Low8(v % 128)];
  }

  /** A decoded value and the number of bytes it took. */
  datatype Read = Read(value: nat, used: nat)

  /** `pb_decode_varint` on the bytes from the read position on; a varint cut short by
      the end of the data yields what was read so far. */
  function DecodeVarint(s: seq<byte>): (r: Read)
    ensures r.used <= |s| && (s != [] ==> r.used > 0)
    decreases s
  {
    if s == [] then Read(0, 0)
    else
      var b := ToNat(s[0]);
      if b < 128 then Read(b, 1)
      else
        var more := DecodeVarint(s[1..]);
        Read(b % 128 + 128 * more.value, 1 + more.used)
  }

  /** The loop accumulates `(b & 127) << shift` by bitwise or. The bits never overlap, as
      `result < weight` says, so that is an addition; `weight` stands for `1 << shift`. */
  method PbDecodeVarint(data: seq<byte>, pos: nat) returns (result: nat, next: nat)
    requires pos <= |data|
    ensures pos <= next <= |data| && DecodeVarint(data[pos..]) == Read(result, next - pos)
  {
    hide ToNat, DecodeVarint, Total;
    result, next := 0, pos;
    var weight := 1;
    VarintStep(data[|data|..]);
    TotalEnds(DecodeVarint(data[pos..]).value, 1);
    while next < |data|
      invariant pos <= next <= |data|
      invariant result < weight
      invariant DecodeVarint(data[pos..]).value == Total(result, weight, DecodeVarint(data[next..]).value)
      invariant DecodeVarint(data[pos..]).used == next - pos + DecodeVarint(data[next..]).used
      decreases |data| - next
    {
      VarintStep(data[next..]);
      assert data[next..][1..] == data[next + 1..];
      var b := ToNat(data[next]);
      next := next + 1;
      AddDigit(result, weight, b, DecodeVarint(data[next..]).value);
      result, weight := result + b % 128 * weight, weight * 128;
      if b < 128 {
        return;
      }
    }
    TotalEnds(result, weight);
  }

  /** The value of the bytes read so far and of those still to come. */
  function Total(result: nat, weight: nat, more: nat): nat {
    result + weight * more
  }

  lemma VarintStep(s: seq<byte>)
    ensures s == [] ==> DecodeVarint(s) == Read(0, 0)
    ensures s != [] && ToNat(s[0]) < 128 ==> DecodeVarint(s) == Read(ToNat(s[0]), 1)
    ensures s != [] && ToNat(s[0]) >= 128 ==>
              DecodeVarint(s)
              == Read(ToNat(s[0]) % 128 + 128 * DecodeVarint(s[1..]).value, 1 + DecodeVarint(s[1..]).used)
  {
    hide ToNat;
  }

  lemma AddDigit(result: nat, weight: nat, b: nat, more: nat)
    requires result < weight
    ensures b < 128 ==> Total(result, weight, b) == result + b % 128 * weight
    ensures Total(result, weight, b % 128 + 128 * more) == Total(result + b % 128 * weight, weight * 128, more)
    ensures result + b % 128 * weight < weight * 128
  {
    Distribute(weight, b % 128, more);
  }

  lemma Distribute(weight: nat, digit: nat, more: nat)
    requires digit < 128
    ensures weight * (digit + 128 * more) == digit * weight + weight * 128 * more
    ensures digit * weight + weight <= weight * 128
  {
    assert weight * (digit + 128 * more) == weight * digit + weight * (128 * more);
    assert (127 - digit) * weight >= 0;
  }

  lemma TotalEnds(n: nat, weight: nat)
    ensures Total(0, 1, n) == n && Total(n, weight, 0) == n
  {
  }

  /** Decoding undoes encoding, whatever follows, exactly for the values that are not
      negative. */
  lemma {:induction false} VarintRoundTrip(value: int, suffix: seq<byte>)
    ensures DecodeVarint(Varint(value) + suffix) == Read(if value >= 0 then value else value % 128, |Varint(value)|)
    decreases if value > 127 then value else 0
  {
    hide Low8, ToNat, DecodeVarint;
    var s := Varint(value) + suffix;
    VarintStep(s);
    if value > 127 {
      ToNatLow8(value % 128 + 128);
      assert s[0] == Low8(value % 128 + 128);
      assert s[1..] == Varint(value / 128) + suffix;
      VarintRoundTrip(value / 128, suffix);
    } else {
      ToNatLow8(value % 128);
      assert s[0] == Low8(value % 128);
    }
  }

  /** 128 to the power `n`: what `n` varint bytes can hold. */
  function Pow128(n: nat): nat {
    if n == 0 then 1 else 128 * Pow128(n - 1)
  }

  lemma {:induction false} VarintLength(value: int, n: nat)
    requires n > 0 && value < Pow128(n)
    ensures |Varint(value)| <= n
    decreases n
  {
    if value > 127 {
      VarintLength(value / 128, n - 1);
    }
  }

  // ---- messages -------------------------------------------------------------

  datatype Value =
    | Number(n: nat)
    | Double(raw: seq<byte>)
    | Bytes(content: seq<byte>)
    | Float(raw: seq<byte>)

  datatype Field = Field(num: nat, value: Value)

  function PbUint32(field: nat, value: int): seq<byte> {
    Varint(8 * field) + Varint(value)
  }

  function PbBool(field: nat, value: bool): seq<byte> {
    Varint(8 * field) + Varint(if value then 1 else 0)
  }

  /** A value of the given wire type and the bytes it took, or nothing where the source
      stops. */
  function ReadValue(wtype: nat, body: seq<byte>): (r: Option<(Value, nat)>)
    ensures r.Some? ==> r.value.1 <= |body|
  {
    match wtype
    case 0 =>
      var v := DecodeVarint(body);
      Some((Number(v.value), v.used))
    case 1 => if |body| < 8 then None else Some((Double(body[..8]), 8))
    case 2 =>
      var ln := DecodeVarint(body);
      var content := Clamp(body[ln.used..], ln.value);
      Some((Bytes(content), ln.used + |content|))
    case 5 => if |body| < 4 then None else Some((Float(body[..4]), 4))
    case _ => None
  }

  function ReadField(s: seq<byte>): (r: Option<(Field, nat)>)
    requires s != []
    ensures r.Some? ==> 0 < r.value.1 <= |s|
  {
    var tag := DecodeVarint(s);
    match ReadValue(tag.value % 8, s[tag.used..])
    case None => None
    case Some((value, used)) => Some((Field(tag.value / 8, value), tag.used + used))
  }

  /** Slicing that stops at the end of the data, as Python's does. */
  function Clamp(s: seq<byte>, n: nat): seq<byte> {
    if n <= |s| then s[..n] else s
  }

  /** The fields of a message in the order they stand. */
  function Fields(s: seq<byte>): seq<Field>
    decreases |s|
  {
    if s == [] then []
    else
      match ReadField(s)
      case None => []
      case Some((field, used)) => [field] + Fields(s[used..])
  }

  /** The values of field `num`, in order. */
  function ValuesOf(fields: seq<Field>, num: nat): seq<Value>
    decreases fields
  {
    if fields == [] then []
    else (if fields[0].num == num then [fields[0].value] else []) + ValuesOf(fields[1..], num)
  }

  lemma ValuesStep(fields: seq<Field>, num: nat)
    ensures fields == [] ==> ValuesOf(fields, num) == []
    ensures fields != [] ==>
              ValuesOf(fields, num)
              == (if fields[0].num == num then [fields[0].value] else []) + ValuesOf(fields[1..], num)
  {
  }

  lemma {:induction false} ValuesOfConcat(a: seq<Field>, b: seq<Field>, num: nat)
    ensures ValuesOf(a + b, num) == ValuesOf(a, num) + ValuesOf(b, num)
    decreases a
  {
    hide ValuesOf;
    ValuesStep(a, num);
    if a == [] {
      assert a + b == b;
    } else {
      ValuesStep(a + b, num);
      assert (a + b)[1..] == a[1..] + b;
      ValuesOfConcat(a[1..], b, num);
    }
  }

  /** The wire-type branches of `pb_decode`. A length that runs past the end is clamped
      here; the source moves past the end instead, and stops in the same place. */
  method PbDecodeValue(wtype: nat, data: seq<byte>, pos: nat) returns (val: Option<Value>, next: nat)
    requires pos <= |data|
    ensures val.None? <==> ReadValue(wtype, data[pos..]).None?
    ensures val.Some? ==> pos <= next <= |data| && ReadValue(wtype, data[pos..]) == Some((val.value, next - pos))
  {
    hide DecodeVarint;
    val, next := None, pos;
    if wtype == 0 {
      var n;
      n, next := PbDecodeVarint(data, pos);
      val := Some(Number(n));
    } else if wtype == 1 {
      if pos + 8 <= |data| {
        assert data[pos..][..8] == data[pos..pos + 8];
        val, next := Some(Double(data[pos..pos + 8])), pos + 8;
      }
    } else if wtype == 2 {
      var ln;
      ln, next := PbDecodeVarint(data, pos);
      assert data[pos..][next - pos..] == data[next..];
      var content := Clamp(data[next..], ln);
      val, next := Some(Bytes(content)), next + |content|;
    } else if wtype == 5 {
      if pos + 4 <= |data| {
        assert data[pos..][..4] == data[pos..pos + 4];
        val, next := Some(Float(data[pos..pos + 4])), pos + 4;
      }
    }
  }

  /** `pb_decode`: under each number, the values of that field in the order they stand. */
  method PbDecode(data: seq<byte>) returns (fields: map<nat, seq<Value>>)
    ensures forall num :: num in fields <==> ValuesOf(Fields(data), num) != []
    ensures forall num :: num in fields ==> fields[num] == ValuesOf(Fields(data), num)
  {
    hide DecodeVarint, ReadValue, Fields, ValuesOf;
    fields := map[];
    ghost var done: seq<Field> := [];
    var pos := 0;
    NoValues();
    while pos < |data|
      invariant pos <= |data|
      invariant done + Fields(data[pos..]) == Fields(data)
      invariant Grouped(fields, done)
      decreases |data| - pos
    {
      ghost var s := data[pos..];
      FieldsStep(s);
      var tag, body := PbDecodeVarint(data, pos);
      assert s[body - pos..] == data[body..];
      var fnum, wtype := tag / 8, tag % 8;
      var val, next := PbDecodeValue(wtype, data, body);
      if val.None? {
        break;
      }
      assert s[next - pos..] == data[next..];
      pos := next;
      AddField(fields, done, Field(fnum, val.value));
      fields := Appended(fields, fnum, val.value);
      done := done + [Field(fnum, val.value)];
    }
    FieldsStep([]);
    assert pos == |data| ==> data[pos..] == [];
    assert done + [] == done;
  }

  /** `fields.setdefault(fnum, []).append(...)` */
  function Appended(fields: map<nat, seq<Value>>, num: nat, value: Value): map<nat, seq<Value>> {
    fields[num := (if num in fields then fields[num] else []) + [value]]
  }

  ghost predicate Grouped(fields: map<nat, seq<Value>>, done: seq<Field>) {
    && (forall num :: num in fields <==> ValuesOf(done, num) != [])
    && (forall num :: num in fields ==> fields[num] == ValuesOf(done, num))
  }

  lemma NoValues()
    ensures forall num :: ValuesOf([], num) == []
  {
  }

  lemma FieldsStep(s: seq<byte>)
    ensures s == [] ==> Fields(s) == []
    ensures s != [] && ReadField(s).None? ==> Fields(s) == []
    ensures s != [] && ReadField(s).Some? ==>
              Fields(s) == [ReadField(s).value.0] + Fields(s[ReadField(s).value.1..])
  {
  }

  lemma AddField(fields: map<nat, seq<Value>>, done: seq<Field>, field: Field)
    requires Grouped(fields, done)
    ensures Grouped(Appended(fields, field.num, field.value), done + [field])
  {
    forall num
      ensures ValuesOf(done + [field], num)
           == ValuesOf(done, num) + (if num == field.num then [field.value] else [])
    {
      ValuesOfConcat(done, [field], num);
      assert ValuesOf([field][1..], num) == [];
    }
  }

  /** A number under a field, as `pb_uint32` writes it. */
  datatype Entry = Entry(num: nat, value: int)

  function Message(entries: seq<Entry>): seq<byte>
    decreases entries
  {
    if entries == [] then [] else PbUint32(entries[0].num, entries[0].value) + Message(entries[1..])
  }

  function NumberFields(entries: seq<Entry>): seq<Field>
    requires forall e | e in entries :: e.value >= 0
    decreases entries
  {
    if entries == [] then []
    else [Field(entries[0].num, Number(entries[0].value))] + NumberFields(entries[1..])
  }

  lemma FieldRoundTrip(num: nat, value: nat, tail: seq<byte>)
    ensures var s := PbUint32(num, value) + tail;
            && ReadField(s) == Some((Field(num, Number(value)), |PbUint32(num, value)|))
            && s[|PbUint32(num, value)|..] == tail
  {
    hide Varint, DecodeVarint;
    var head, body := Varint(8 * num), Varint(value);
    var s := PbUint32(num, value) + tail;
    assert s == head + (body + tail);
    assert s[|head|..] == body + tail;
    VarintRoundTrip(8 * num, body + tail);
    VarintRoundTrip(value, tail);
  }

  /** Any concatenation of `pb_uint32` fields is read back in order. */
  lemma {:induction false} MessageRoundTrip(entries: seq<Entry>)
    requires forall e | e in entries :: e.value >= 0
    ensures Fields(Message(entries)) == NumberFields(entries)
    decreases entries
  {
    hide PbUint32, ReadField;
    if entries != [] {
      var e := entries[0];
      FieldRoundTrip(e.num, e.value, Message(entries[1..]));
      FieldsStep(Message(entries));
      MessageRoundTrip(entries[1..]);
    }
  }

  // ---- all wire types ---------------------------------------------------------

  /** A value that can be written: fixed-size ones have their eight or four bytes. */
  predicate Writable(v: Value) {
    (v.Double? ==> |v.raw| == 8) && (v.Float? ==> |v.raw| == 4)
  }

  /** The protobuf encoding of a field: its tag, and the value as its wire type wants it. */
  function Written(f: Field): (s: seq<byte>)
    ensures s != []
  {
    match f.value
    case Number(n) => Varint(8 * f.num) + Varint(n)
    case Double(raw) => Varint(8 * f.num + 1) + raw
    case Bytes(content) => Varint(8 * f.num + 2) + Varint(|content|) + content
    case Float(raw) => Varint(8 * f.num + 5) + raw
  }

  function WrittenAll(fields: seq<Field>): seq<byte>
    decreases fields
  {
    if fields == [] then [] else Written(fields[0]) + WrittenAll(fields[1..])
  }

  lemma ValueRoundTrip(v: Value, tail: seq<byte>)
    requires Writable(v)
    ensures v.Number? ==> ReadValue(0, Varint(v.n) + tail) == Some((v, |Varint(v.n)|))
    ensures v.Double? ==> ReadValue(1, v.raw + tail) == Some((v, 8))
    ensures v.Bytes? ==>
              ReadValue(2, Varint(|v.content|) + v.content + tail) == Some((v, |Varint(|v.content|)| + |v.content|))
    ensures v.Float? ==> ReadValue(5, v.raw + tail) == Some((v, 4))
  {
    hide Varint, DecodeVarint;
    match v
    case Number(n) => VarintRoundTrip(n, tail);
    case Double(raw) => assert (raw + tail)[..8] == raw;
    case Bytes(content) =>
      var head := Varint(|content|);
      VarintRoundTrip(|content|, content + tail);
      assert head + content + tail == head + (content + tail);
      assert (head + (content + tail))[|head|..] == content + tail && (content + tail)[..|content|] == content;
    case Float(raw) => assert (raw + tail)[..4] == raw;
  }

  function WireType(v: Value): (w: nat)
    ensures w < 8
  {
    match v case Number(_) => 0 case Double(_) => 1 case Bytes(_) => 2 case Float(_) => 5
  }

  function WrittenValue(v: Value): seq<byte> {
    match v
    case Number(n) => Varint(n)
    case Double(raw) => raw
    case Bytes(content) => Varint(|content|) + content
    case Float(raw) => raw
  }

  lemma WrittenParts(f: Field)
    ensures Written(f) == Varint(8 * f.num + WireType(f.value)) + WrittenValue(f.value)
  {
    hide Varint;
    if f.value.Bytes? {
      var tag, content := Varint(8 * f.num + 2), f.value.content;
      assert tag + Varint(|content|) + content == tag + (Varint(|content|) + content);
    }
  }

  lemma AnyFieldRoundTrip(f: Field, tail: seq<byte>)
    requires Writable(f.value)
    ensures var s := Written(f) + tail;
            ReadField(s) == Some((f, |Written(f)|)) && s[|Written(f)|..] == tail
  {
    hide Varint, DecodeVarint, ReadValue, Written;
    var w := WireType(f.value);
    var tag, body := Varint(8 * f.num + w), WrittenValue(f.value);
    WrittenParts(f);
    VarintRoundTrip(8 * f.num + w, body + tail);
    ValueRoundTrip(f.value, tail);
    assert Written(f) + tail == tag + (body + tail);
    assert (tag + (body + tail))[|tag|..] == body + tail;
    assert ReadValue(w, body + tail) == Some((f.value, |body|));
    hide WireType, WrittenValue;
    assert (8 * f.num + w) % 8 == w && (8 * f.num + w) / 8 == f.num;
  }

  /** Any message is read back field by field: numbers, texts and fixed-size values, in any order. */
  lemma {:induction false} AnyMessageRoundTrip(fields: seq<Field>)
    requires forall f <- fields :: Writable(f.value)
    ensures Fields(WrittenAll(fields)) == fields
    decreases fields
  {
    hide Written, ReadField;
    if fields != [] {
      var f := fields[0];
      AnyFieldRoundTrip(f, WrittenAll(fields[1..]));
      FieldsStep(WrittenAll(fields));
      AnyMessageRoundTrip(fields[1..]);
    }
  }

  /** What is cut short: a text keeps what is there, a fixed-size value and any other wire type end the message. */
  lemma CutShort(n: nat, content: seq<byte>, wtype: nat)
    ensures |content| < n ==>
              ReadValue(2, Varint(n) + content) == Some((Bytes(content), |Varint(n)| + |content|))
    ensures |content| < 8 ==> ReadValue(1, content) == None
    ensures |content| < 4 ==> ReadValue(5, content) == None
    ensures wtype !in {0, 1, 2, 5} ==> ReadValue(wtype, content) == None
  {
    hide Varint, DecodeVarint;
    VarintRoundTrip(n, content);
    assert (Varint(n) + content)[|Varint(n)|..] == content;
  }
}
