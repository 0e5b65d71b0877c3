/** The v1 wire protocol. JSON is opaque: `json` is any partial decoder, `dump` any encoder. */
module AceProtocolV1 {
  import opened Crc
  import opened Framing
  import opened ByteArrays
  import opened Wrappers

  const FRAME_END: byte := 0xFE
  const MAX_PAYLOAD_LEN: nat := 2048
  const MAX_REQUEST_LEN: nat := 1024
  const HEADER_LEN: nat := 4
  const MIN_FRAME_LEN: nat := HEADER_LEN + TRAILER_LEN
  const CRC_COLLISION: bv16 := 0xAAFF
  const MAX_ATTEMPTS: nat := 10

  /** `struct.unpack('<H', ...)` at position two. */
  function PayloadLen(header: seq<byte>): nat {
    if |header| < HEADER_LEN then 0 else ToNat(header[2]) + 256 * ToNat(header[3])
  }

  /** v1 looks at neither the checksum nor the end marker of what it receives. */
  function FormatOf<M>(json: seq<byte> -> Option<M>): Format<M> {
    Format(HEADER_LEN, MAX_PAYLOAD_LEN, PayloadLen,
           packet =>
             if |packet| < MIN_FRAME_LEN then Drop
             else match json(packet[HEADER_LEN..|packet| - TRAILER_LEN])
                  case None => Drop
                  case Some(m) => Emit(m))
  }

  // ---- the parser -----------------------------------------------------------

  /** One turn on an aligned buffer, read off the buffer itself. */
  function Turn<M>(json: seq<byte> -> Option<M>, t: seq<byte>): Step<M> {
    if |t| < HEADER_LEN then Halt(t)
    else
      var n := PayloadLen(t);
      var total := HEADER_LEN + n + TRAILER_LEN;
      if n > MAX_PAYLOAD_LEN then Next(t[2..], [])
      else if |t| < total then Halt(t)
      else match json(t[HEADER_LEN..HEADER_LEN + n])
           case None => Next(t[total..], [])
           case Some(m) => Next(t[total..], [m])
  }

  lemma AdvanceIsTurn<M>(json: seq<byte> -> Option<M>, t: seq<byte>)
    requires PreambleAt(t, 0)
    ensures AdvanceAligned(FormatOf(json), t) == Turn(json, t)
  {
    hide ToNat;
    if |t| >= HEADER_LEN {
      assert t[..HEADER_LEN][2] == t[2] && t[..HEADER_LEN][3] == t[3];
      var total := HEADER_LEN + PayloadLen(t) + TRAILER_LEN;
      if |t| >= total {
        assert t[..total][HEADER_LEN..total - TRAILER_LEN] == t[HEADER_LEN..total - TRAILER_LEN];
      }
    }
  }

  lemma LoopTurn<M>(json: seq<byte> -> Option<M>, s: seq<byte>)
    requires |s| >= MIN_FRAME_LEN
    ensures FindPreamble(s) < 0 ==> Decode(FormatOf(json), s) == Decoded([], Residue(s))
    ensures FindPreamble(s) >= 0 ==>
              match Turn(json, s[FindPreamble(s)..])
              case Halt(rest) => Decode(FormatOf(json), s) == Decoded([], rest)
              case Next(rest, out) =>
                var after := Decode(FormatOf(json), rest);
                Decode(FormatOf(json), s) == Decoded(out + after.frames, after.rest)
  {
    hide Turn, AdvanceAligned;
    if FindPreamble(s) >= 0 {
      assert PreambleAt(s[FindPreamble(s)..], 0);
      AdvanceIsTurn(json, s[FindPreamble(s)..]);
    }
  }

  lemma ShortStays<M>(json: seq<byte> -> Option<M>, s: seq<byte>)
    ensures |s| < MIN_FRAME_LEN ==> Decode(FormatOf(json), s) == Decoded([], s)
  {
  }

  method DecodeFrames<M>(json: seq<byte> -> Option<M>, buffer: ByteArray) returns (results: seq<M>)
    modifies buffer
    ensures Decoded(results, buffer.bytes) == Decode(FormatOf(json), old(buffer.bytes))
  {
    hide Decode, PreambleAt, FindPreamble, PayloadLen, FormatOf;
    results := [];
    ghost var fmt := FormatOf(json);
    ghost var whole := Decode(fmt, buffer.bytes);
    while |buffer.bytes| >= MIN_FRAME_LEN
      invariant whole == Decoded(results + Decode(fmt, buffer.bytes).frames, Decode(fmt, buffer.bytes).rest)
      decreases |buffer.bytes|
    {
      LoopTurn(json, buffer.bytes);
      var start := FindPreamble(buffer.bytes);
      if start < 0 {
        buffer.bytes := if buffer.bytes[|buffer.bytes| - 1] == 0xFF then buffer.bytes[|buffer.bytes| - 1..] else [];
        break;
      }
      buffer.bytes := buffer.bytes[start..];
      var s := buffer.bytes;
      if |s| < HEADER_LEN {
        break;
      }
      var payloadLen := PayloadLen(s);
      if payloadLen > MAX_PAYLOAD_LEN {
        buffer.bytes := s[2..];
        continue;
      }
      var totalLen := HEADER_LEN + payloadLen + TRAILER_LEN;
      if |s| < totalLen {
        break;
      }
      var payload := s[HEADER_LEN..HEADER_LEN + payloadLen];
      buffer.bytes := s[totalLen..];
      match json(payload)
      case None =>
      case Some(ret) =>
        Regroup(results, ret, Decode(fmt, buffer.bytes).frames);
        results := results + [ret];
    }
    ShortStays(json, buffer.bytes);
  }

  /**
   * Everything the parser does with a buffer that starts with a preamble: over
   * an announced length beyond the limit it skips the preamble only, for an
   * incomplete frame it waits, and a complete one is swallowed whole, message
   * or not.
   */
  lemma PacketLaw<M>(json: seq<byte> -> Option<M>, s: seq<byte>)
    requires |s| >= 7 && s[0] == 0xFF && s[1] == 0xAA
    ensures var n := ToNat(s[2]) + 256 * ToNat(s[3]);
            if n > 2048 then
              Decode(FormatOf(json), s) == Decode(FormatOf(json), s[2..])
            else if n + 7 > |s| then
              Decode(FormatOf(json), s) == Decoded([], s)
            else
              var after := Decode(FormatOf(json), s[n + 7..]);
              var out := if json(s[4..4 + n]).Some? then [json(s[4..4 + n]).value] else [];
              Decode(FormatOf(json), s) == Decoded(out + after.frames, after.rest)
  {
    hide Decode, FormatOf, ToNat, FindPreamble;
    assert PreambleAt(s, 0) && FindPreamble(s) == 0 && s[0..] == s;
    LoopTurn(json, s);
    var d := Decode(FormatOf(json), s[2..]);
    assert [] + d.frames == d.frames;
  }

  /** A frame that announces too much and an intact one behind it: the intact one is found. */
  lemma LongFrameHidesNothing<M>(json: seq<byte> -> Option<M>, c: seq<byte>, rest: seq<byte>)
    requires PreambleAt(c, 0) && (forall i | i > 0 :: !PreambleAt(c, i)) && PreambleAt(rest, 0)
    requires |c + rest| >= 7 && ToNat((c + rest)[2]) + 256 * ToNat((c + rest)[3]) > 2048
    ensures Decode(FormatOf(json), c + rest).frames == Decode(FormatOf(json), rest).frames
  {
    hide Decode, FormatOf, ToNat, FindPreamble;
    PacketLaw(json, c + rest);
    assert (c + rest)[2..] == c[2..] + rest;
    forall i | 0 <= i < |c| - 2
      ensures !PreambleAt(c[2..] + rest, i)
    {
      assert !PreambleAt(c, i + 2);
    }
    FramesSkipJunk(FormatOf(json), c[2..] + rest, |c| - 2);
    assert (c[2..] + rest)[|c| - 2..] == rest;
  }

  // ---- requests --------------------------------------------------------------

  /** A frame with any three bytes for its trailer. */
  function Framed(payload: seq<byte>, trailer: seq<byte>): seq<byte> {
    [0xFF, 0xAA] + [Low8(|payload|), Low8(|payload| / 256)] + payload + trailer
  }

  function Wire(payload: seq<byte>): seq<byte> {
    Framed(payload, [LoByte(Kermit(payload)), HiByte(Kermit(payload)), FRAME_END])
  }

  /** The id of the k-th try: the request's own, then what `next_id` hands out. */
  function IdAt(id: int, nextId: nat -> int, k: nat): int {
    if k == 0 then id else nextId(k - 1)
  }

  /** What two length bytes can say. */
  const MAX_LENGTH: nat := 65535

  datatype EncodeResult = Encoded(bytes: seq<byte>) | TooLarge | LengthError

  /** `encode_request`: retries with fresh ids while the checksum bytes would read as a
      preamble. The size limit is checked on the first try only, as in the source; a later
      payload that two length bytes cannot announce makes packing them fail. */
  method EncodeRequest(dump: int -> seq<byte>, id: int, nextId: Option<nat -> int>)
    returns (r: EncodeResult, attempts: nat)
    ensures r.TooLarge? <==> |dump(id)| > 1024
    ensures attempts <= 10 && (nextId.None? ==> attempts == 0)
    ensures !r.TooLarge? ==>
              var idOf := if nextId.Some? then nextId.value else (_ => id);
              && (r.LengthError? <==> |dump(IdAt(id, idOf, attempts))| > 65535)
              && (r.Encoded? ==> r.bytes == Wire(dump(IdAt(id, idOf, attempts))))
              && (forall k | 0 <= k < attempts :: Kermit(dump(IdAt(id, idOf, k))) == CRC_COLLISION)
              && (Kermit(dump(IdAt(id, idOf, attempts))) == CRC_COLLISION ==> nextId.None? || attempts == 10)
  {
    hide Kermit, LoByte, HiByte;
    attempts := 0;
    var payload := dump(id);
    if |payload| > MAX_REQUEST_LEN {
      return TooLarge, 0;
    }
    var idOf := if nextId.Some? then nextId.value else (_ => id);
    var crc := CheckedCrc(payload);
    while crc == CRC_COLLISION && attempts < MAX_ATTEMPTS && nextId.Some?
      invariant attempts <= MAX_ATTEMPTS && (nextId.None? ==> attempts == 0)
      invariant payload == dump(IdAt(id, idOf, attempts)) && crc == Kermit(payload)
      invariant forall k | 0 <= k < attempts :: Kermit(dump(IdAt(id, idOf, k))) == CRC_COLLISION
      decreases MAX_ATTEMPTS - attempts
    {
      payload := dump(nextId.value(attempts));
      crc := CheckedCrc(payload);
      attempts := attempts + 1;
    }
    if |payload| > MAX_LENGTH {
      return LengthError, attempts;
    }
    var data := [0xFF, 0xAA];
    data := data + [Low8(|payload|), Low8(|payload| / 256)];
    data := data + payload;
    data := data + [LoByte(crc), HiByte(crc), FRAME_END];
    r := Encoded(data);
  }

  /** `calc_crc`, narrowed to the two bytes it always fits in. */
  method CheckedCrc(payload: seq<byte>) returns (crc: bv16)
    ensures crc == Kermit(payload)
  {
    var wide := CalcCrc(payload);
    assert wide == Kermit(payload) as bv32;
    crc := wide as bv16;
  }

  /** A frame byte for byte: length and checksum go low byte first. */
  lemma KnownFrame()
    ensures Wire(DIGITS) == [0xFF, 0xAA, 0x09, 0x00] + DIGITS + [0x91, 0x6F, 0xFE]
  {
    hide KermitFrom;
    CheckValue();
    KnownBytes();
  }

  lemma KnownBytes()
    ensures Low8(9) == 0x09 && Low8(0) == 0x00 && LoByte(0x6F91) == 0x91 && HiByte(0x6F91) == 0x6F
  {
  }

  /** What the retries avoid: checksum bytes that read as a preamble. */
  lemma CollisionIsPreamble(payload: seq<byte>)
    ensures PreambleAt(Wire(payload), |payload| + 4) <==> Kermit(payload) == CRC_COLLISION
  {
    hide Kermit, LoByte, HiByte, Low8;
    HalvesCollide(Kermit(payload));
  }

  lemma HalvesCollide(c: bv16)
    ensures LoByte(c) == 0xFF && HiByte(c) == 0xAA <==> c == CRC_COLLISION
  {
  }

  /** Neither checksum nor end marker is looked at: whatever the trailer, and whatever follows,
      a frame yields its message exactly when its payload decodes. */
  lemma TrailerIsIgnored<M>(json: seq<byte> -> Option<M>, payload: seq<byte>, trailer: seq<byte>, rest: seq<byte>)
    requires |payload| <= 2048 && |trailer| == 3
    ensures var after := Decode(FormatOf(json), rest);
            Decode(FormatOf(json), Framed(payload, trailer) + rest)
            == if json(payload).Some? then Decoded([json(payload).value] + after.frames, after.rest) else after
  {
    hide Decode, FindPreamble, Low8, ToNat;
    var t, n := Framed(payload, trailer) + rest, |payload|;
    var total := HEADER_LEN + n + TRAILER_LEN;
    assert PreambleAt(t, 0);
    assert FindPreamble(t) == 0 && t[0..] == t;
    LengthBytes(n);
    assert t[2] == Low8(n) && t[3] == Low8(n / 256);
    assert t[HEADER_LEN..HEADER_LEN + n] == payload;
    assert t[total..] == rest;
    LoopTurn(json, t);
  }

  /** What `encode_request` frames, `decode_frames` recovers, with any bytes following. */
  lemma RoundTrip<M>(json: seq<byte> -> Option<M>, payload: seq<byte>, rest: seq<byte>)
    requires |payload| <= 2048 && json(payload).Some?
    ensures var after := Decode(FormatOf(json), rest);
            Decode(FormatOf(json), Wire(payload) + rest) == Decoded([json(payload).value] + after.frames, after.rest)
  {
    hide Decode, LoByte, HiByte, Kermit, Framed;
    TrailerIsIgnored(json, payload, [LoByte(Kermit(payload)), HiByte(Kermit(payload)), FRAME_END], rest);
  }

  lemma LengthBytes(n: nat)
    requires n < 65536
    ensures ToNat(Low8(n)) + 256 * ToNat(Low8(n / 256)) == n
  {
    hide Low8, ToNat;
    ToNatLow8(n % 256);
    ToNatLow8(n / 256);
    Low8Wraps(n);
  }

  lemma Low8Wraps(n: nat)
    ensures Low8(n) == Low8(n % 256)
  {
    assert n % 256 == (n % 256) % 256;
  }
}
