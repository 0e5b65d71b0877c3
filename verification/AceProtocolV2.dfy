/** The v2 wire protocol: framing, its parser, and what damage does to a stream. */
module AceProtocolV2 {
  import opened Crc
  import opened Framing
  import opened ByteArrays
  import opened Wrappers

  const END_MARKER: byte := 0xFE
  const FLAG_REQUEST: byte := 0x00
  const FLAG_RESPONSE: byte := 0x80
  const HEADER_LEN: nat := 7
  const MIN_FRAME_LEN: nat := HEADER_LEN + TRAILER_LEN
  const MAX_PAYLOAD_LEN: nat := 100

  /** What the parser hands to the response translator. */
  datatype Response = Response(cmd: byte, seqNo: bv16, payload: seq<byte>)

  datatype Frame = Frame(flags: byte, seqNo: bv16, cmd: byte, payload: seq<byte>)
  {
    predicate Valid() {
      |payload| <= MAX_PAYLOAD_LEN
    }

    function Header(): seq<byte> {
      [flags, LoByte(seqNo), HiByte(seqNo), cmd]
    }

    /** The checksummed part. */
    function Inner(): seq<byte>
      requires Valid()
    {
      Header() + [Low8(|payload|)] + payload
    }

    function Wire(): seq<byte>
      requires Valid()
    {
      Packet(Inner(), Kermit(Inner()))
    }

    /** What the parser should make of this frame when it arrives whole. */
    function Yield(): seq<Response> {
      if flags & FLAG_RESPONSE == 0 then [] else [Response(cmd, seqNo, payload)]
    }
  }

  function WordOf(lo: byte, hi: byte): bv16 {
    (lo as bv16) | ((hi as bv16) << 8)
  }

  function Packet(inner: seq<byte>, crc: bv16): seq<byte> {
    [0xFF, 0xAA] + inner + [LoByte(crc), HiByte(crc), END_MARKER]
  }

  datatype EncodeResult = Encoded(bytes: seq<byte>) | PayloadTooLong

  /** `encode_request`, after the method has been translated to a command and payload. */
  method EncodeRequest(id: int, cmd: int, payload: seq<byte>) returns (r: EncodeResult)
    ensures |payload| > 100 <==> r.PayloadTooLong?
    ensures r.Encoded? ==> RequestFrame(id, cmd, payload).Valid() && r.bytes == RequestFrame(id, cmd, payload).Wire()
  {
    hide LoByte, HiByte, Low8, Low16, KermitFrom;
    var seqNo := Low16(id);
    if |payload| > MAX_PAYLOAD_LEN {
      return PayloadTooLong;
    }
    var inner := [FLAG_REQUEST, LoByte(seqNo), HiByte(seqNo), Low8(cmd), Low8(|payload|)];
    inner := inner + payload;
    var crc := Crc16Kermit(inner);
    assert inner == RequestFrame(id, cmd, payload).Inner();
    r := Encoded([0xFF, 0xAA] + inner + [LoByte(crc), HiByte(crc), END_MARKER]);
  }

  function RequestFrame(id: int, cmd: int, payload: seq<byte>): Frame {
    Frame(FLAG_REQUEST, Low16(id), Low8(cmd), payload)
  }

  /** A request without parameters, byte for byte: its numbers go low byte first. */
  lemma KnownRequest()
    ensures Frame(FLAG_REQUEST, 0x0102, 0x06, []).Wire()
         == [0xFF, 0xAA, 0x00, 0x02, 0x01, 0x06, 0x00, 0xF2, 0x07, 0xFE]
  {
    hide KermitFrom, NibbleStep;
    var f := Frame(FLAG_REQUEST, 0x0102, 0x06, []);
    var inner: seq<byte> := [0x00, 0x02, 0x01, 0x06, 0x00];
    KnownLength();
    KnownHalves();
    hide LoByte, HiByte, Low8;
    assert f.Inner() == inner;
    KnownChecksum();
  }

  lemma KnownLength()
    ensures Low8(0) == 0x00
  {
  }

  lemma KnownHalves()
    ensures LoByte(0x0102) == 0x02 && HiByte(0x0102) == 0x01 && LoByte(0x07F2) == 0xF2 && HiByte(0x07F2) == 0x07
  {
  }

  lemma KnownChecksum()
    ensures Kermit([0x00, 0x02, 0x01, 0x06, 0x00]) == 0x07F2
  {
    hide KermitFrom;
    var d: seq<byte> := [0x00, 0x02, 0x01, 0x06, 0x00];
    Start(d);
    OneMore(d[..0], 0xFFFF, 0x00, 0x0F87);
    assert d[..1] == d[..0] + [0x00];
    OneMore(d[..1], 0x0F87, 0x02, 0xD3AA);
    assert d[..2] == d[..1] + [0x02];
    OneMore(d[..2], 0xD3AA, 0x01, 0x1B0A);
    assert d[..3] == d[..2] + [0x01];
    OneMore(d[..3], 0x1B0A, 0x06, 0xCA77);
    assert d[..4] == d[..3] + [0x06];
    OneMore(d[..4], 0xCA77, 0x00, 0x07F2);
    assert d[..5] == d[..4] + [0x00] && d[..5] == d;
  }

  // ---- the parser -----------------------------------------------------------

  function PayloadLen(header: seq<byte>): nat {
    if |header| < HEADER_LEN then 0 else ToNat(header[6])
  }

  function Judge(packet: seq<byte>): Verdict<Response> {
    var n := |packet|;
    if n < MIN_FRAME_LEN || packet[n - 1] != END_MARKER then Resync
    else if WordOf(packet[n - 3], packet[n - 2]) != Kermit(packet[2..n - 3]) then Drop
    else if packet[2] & FLAG_RESPONSE == 0 then Drop
    else Emit(Response(packet[5], WordOf(packet[3], packet[4]), packet[HEADER_LEN..n - 3]))
  }

  const FORMAT: Format<Response> := Format(HEADER_LEN, MAX_PAYLOAD_LEN, PayloadLen, Judge)

  /** One turn on an aligned buffer. */
  function Turn(t: seq<byte>): Step<Response> {
    if |t| < HEADER_LEN then Halt(t)
    else
      var n := ToNat(t[6]);
      var total := HEADER_LEN + n + TRAILER_LEN;
      if n > MAX_PAYLOAD_LEN then Next(t[2..], [])
      else if |t| < total then Halt(t)
      else
        match Judge(t[..total])
        case Resync => Next(t[2..], [])
        case Drop => Next(t[total..], [])
        case Emit(ret) => Next(t[total..], [ret])
  }

  lemma AdvanceIsTurn(t: seq<byte>)
    requires PreambleAt(t, 0)
    ensures AdvanceAligned(FORMAT, t) == Turn(t)
  {
    hide Judge, ToNat;
    if |t| >= HEADER_LEN {
      assert t[..HEADER_LEN][6] == t[6];
    }
  }

  /** One turn of the loop, from a buffer long enough to enter it. */
  lemma LoopTurn(s: seq<byte>)
    requires |s| >= MIN_FRAME_LEN
    ensures FindPreamble(s) < 0 ==> Decode(FORMAT, s) == Decoded([], Residue(s))
    ensures FindPreamble(s) >= 0 ==>
              match Turn(s[FindPreamble(s)..])
              case Halt(rest) => Decode(FORMAT, s) == Decoded([], rest)
              case Next(rest, out) =>
                Decode(FORMAT, s) == Decoded(out + Decode(FORMAT, rest).frames, Decode(FORMAT, rest).rest)
  {
    hide Turn, AdvanceAligned, PreambleAt;
    if FindPreamble(s) >= 0 {
      StartsAligned(s);
      AdvanceIsTurn(s[FindPreamble(s)..]);
    }
  }

  lemma StartsAligned(s: seq<byte>)
    requires FindPreamble(s) >= 0
    ensures PreambleAt(s[FindPreamble(s)..], 0)
  {
  }

  /** The checks a complete packet goes through. */
  method CheckPacket(packet: seq<byte>) returns (verdict: Verdict<Response>)
    requires |packet| >= MIN_FRAME_LEN
    ensures verdict == Judge(packet)
  {
    hide WordOf, Kermit;
    var n := |packet|;
    if packet[n - 1] != END_MARKER {
      return Resync;
    }
    var inner := packet[2..n - 3];
    var crcInFrame := WordOf(packet[n - 3], packet[n - 2]);
    var crcCalc := Crc16Kermit(inner);
    if crcInFrame != crcCalc {
      return Drop;
    }
    if packet[2] & FLAG_RESPONSE == 0 {
      return Drop;
    }
    return Emit(Response(packet[5], WordOf(packet[3], packet[4]), packet[HEADER_LEN..n - 3]));
  }

  // ---- translating the responses ------------------------------------------------

  /** One call of the parser: what it returns, unless it raised, and the bytes it leaves. */
  datatype Parsed<+M> = Parsed(results: seq<M>, raised: bool, rest: seq<byte>)

  function Collect<M>(ms: seq<M>, p: Parsed<M>): Parsed<M> {
    if p.raised then p else Parsed(ms + p.results, false, p.rest)
  }

  /** The loop with its translator, which raises where it yields nothing. The frame is off the
      buffer by then, and the messages before it are lost with the call. */
  function Parse<M>(translate: Response -> Option<M>, s: seq<byte>): Parsed<M>
    decreases |s|
  {
    if |s| < MIN_FRAME_LEN then Parsed([], false, s)
    else
      match Advance(FORMAT, s)
      case Halt(rest) => Parsed([], false, rest)
      case Next(rest, out) =>
        if out == [] then Parse(translate, rest)
        else if translate(out[0]).None? then Parsed([], true, rest)
        else Collect([translate(out[0]).value], Parse(translate, rest))
  }

  /** One turn of the translating loop. */
  lemma ParseTurn<M>(translate: Response -> Option<M>, s: seq<byte>)
    requires |s| >= MIN_FRAME_LEN
    ensures FindPreamble(s) < 0 ==> Parse(translate, s) == Parsed([], false, Residue(s))
    ensures FindPreamble(s) >= 0 ==>
              match Turn(s[FindPreamble(s)..])
              case Halt(rest) => Parse(translate, s) == Parsed([], false, rest)
              case Next(rest, out) =>
                Parse(translate, s) ==
                  if out == [] then Parse(translate, rest)
                  else if translate(out[0]).None? then Parsed([], true, rest)
                  else Collect([translate(out[0]).value], Parse(translate, rest))
  {
    hide Turn, AdvanceAligned, PreambleAt;
    if FindPreamble(s) >= 0 {
      StartsAligned(s);
      AdvanceIsTurn(s[FindPreamble(s)..]);
    }
  }

  lemma CollectTwice<M>(a: seq<M>, m: M, p: Parsed<M>)
    ensures Collect(a, Collect([m], p)) == Collect(a + [m], p)
  {
    assert a + ([m] + p.results) == (a + [m]) + p.results;
  }

  method DecodeFrames<M>(buffer: ByteArray, translate: Response -> Option<M>) returns (results: seq<M>, raised: bool)
    modifies buffer
    ensures Parsed(results, raised, buffer.bytes) == Parse(translate, old(buffer.bytes))
  {
    hide Parse, PreambleAt, FindPreamble, ToNat, FORMAT, Judge, AdvanceAligned, Advance, Collect;
    results, raised := [], false;
    ghost var whole := Parse(translate, buffer.bytes);
    CollectNothing(whole);
    while |buffer.bytes| >= MIN_FRAME_LEN
      invariant whole == Collect(results, Parse(translate, buffer.bytes))
      decreases |buffer.bytes|
    {
      ParseTurn(translate, buffer.bytes);
      var start := FindPreamble(buffer.bytes);
      if start < 0 {
        buffer.bytes := if buffer.bytes[|buffer.bytes| - 1] == 0xFF then buffer.bytes[|buffer.bytes| - 1..] else [];
        CollectLast(results, buffer.bytes);
        return;
      }
      buffer.bytes := buffer.bytes[start..];
      var s := buffer.bytes;
      if |s| < HEADER_LEN {
        CollectLast(results, s);
        return;
      }
      var payloadLen := ToNat(s[6]);
      if payloadLen > MAX_PAYLOAD_LEN {
        buffer.bytes := s[2..];
        continue;
      }
      var totalLen := HEADER_LEN + payloadLen + TRAILER_LEN;
      if |s| < totalLen {
        CollectLast(results, s);
        return;
      }
      var verdict := CheckPacket(s[..totalLen]);
      if verdict.Resync? {
        buffer.bytes := s[2..];
        continue;
      }
      buffer.bytes := s[totalLen..];
      if verdict.Emit? {
        match translate(verdict.frame)
        case None =>
          CollectRaised(results, Parsed([], true, buffer.bytes));
          return [], true;
        case Some(ret) =>
          CollectTwice(results, ret, Parse(translate, buffer.bytes));
          results := results + [ret];
      }
    }
    ShortParse(translate, buffer.bytes);
    CollectLast(results, buffer.bytes);
  }

  lemma CollectNothing<M>(p: Parsed<M>)
    ensures Collect([], p) == p
  {
  }

  lemma CollectLast<M>(ms: seq<M>, rest: seq<byte>)
    ensures Collect(ms, Parsed([], false, rest)) == Parsed(ms, false, rest)
  {
  }

  lemma CollectRaised<M>(ms: seq<M>, p: Parsed<M>)
    ensures p.raised ==> Collect(ms, p) == p
  {
  }

  lemma ShortParse<M>(translate: Response -> Option<M>, s: seq<byte>)
    ensures |s| < MIN_FRAME_LEN ==> Parse(translate, s) == Parsed([], false, s)
  {
  }

  /** The index of the first response that the translator raises on, or their number. */
  function FirstRaising<M>(translate: Response -> Option<M>, frames: seq<Response>): (i: nat)
    ensures i <= |frames| && (i < |frames| ==> translate(frames[i]).None?)
    ensures forall j | 0 <= j < i :: translate(frames[j]).Some?
    decreases frames
  {
    if frames == [] || translate(frames[0]).None? then 0 else 1 + FirstRaising(translate, frames[1..])
  }

  function Translated<M>(translate: Response -> Option<M>, frames: seq<Response>): (ms: seq<M>)
    requires FirstRaising(translate, frames) == |frames|
    ensures |ms| == |frames|
  {
    seq(|frames|, i requires 0 <= i < |frames| => translate(frames[i]).value)
  }

  lemma FirstRaisingSkips<M>(translate: Response -> Option<M>, out: seq<Response>, more: seq<Response>)
    requires FirstRaising(translate, out) == |out|
    ensures FirstRaising(translate, out + more) == |out| + FirstRaising(translate, more)
  {
    hide FirstRaising;
    var all := out + more;
    assert forall x | 0 <= x < |out| :: all[x] == out[x];
    assert forall x | 0 <= x < |more| :: all[|out| + x] == more[x];
  }

  lemma TranslatedConcat<M>(translate: Response -> Option<M>, out: seq<Response>, more: seq<Response>)
    requires FirstRaising(translate, out) == |out| && FirstRaising(translate, more) == |more|
    ensures FirstRaising(translate, out + more) == |out + more|
    ensures Translated(translate, out + more) == Translated(translate, out) + Translated(translate, more)
  {
    hide FirstRaising;
    FirstRaisingSkips(translate, out, more);
  }

  /**
   * A call returns all messages of its buffer, if none of them raises, and
   * otherwise none: it stops at the first that does, and leaves exactly the
   * frames after it.
   */
  lemma {:induction false} ParseIsAllOrNothing<M>(translate: Response -> Option<M>, s: seq<byte>)
    ensures var d, p := Decode(FORMAT, s), Parse(translate, s);
            var i := FirstRaising(translate, d.frames);
            && (p.raised <==> i < |d.frames|)
            && (!p.raised ==> p.results == Translated(translate, d.frames) && p.rest == d.rest)
            && (p.raised ==> p.results == [] && Decode(FORMAT, p.rest) == Decoded(d.frames[i + 1..], d.rest))
    decreases |s|
  {
    hide AdvanceAligned, PreambleAt, FindPreamble, FORMAT, FirstRaising, Translated, Turn, Decode, Parse;
    if |s| < MIN_FRAME_LEN {
      ShortParse(translate, s);
      ShortStays(s);
      NothingRaises(translate);
    } else {
      LoopTurn(s);
      ParseTurn(translate, s);
      var start := FindPreamble(s);
      if start < 0 || Turn(s[start..]).Halt? {
        NothingRaises(translate);
      } else {
        TurnIsShort(s[start..]);
        var rest, out := Turn(s[start..]).rest, Turn(s[start..]).out;
        ParseIsAllOrNothing(translate, rest);
        OneTurn(translate, out, Decode(FORMAT, rest).frames, Parse(translate, rest));
      }
    }
  }

  lemma NothingRaises<M>(translate: Response -> Option<M>)
    ensures FirstRaising(translate, []) == 0 && Translated(translate, []) == []
  {
  }

  lemma TurnIsShort(t: seq<byte>)
    ensures Turn(t).Next? ==> |Turn(t).rest| < |t| && |Turn(t).out| <= 1
  {
    hide Judge;
  }

  lemma OneTurn<M>(translate: Response -> Option<M>, out: seq<Response>, more: seq<Response>, p: Parsed<M>)
    requires |out| <= 1
    requires p.raised <==> FirstRaising(translate, more) < |more|
    requires !p.raised ==> p.results == Translated(translate, more)
    ensures var i := FirstRaising(translate, out + more);
            if out == [] then out + more == more && i == FirstRaising(translate, more)
            else if translate(out[0]).None? then i == 0 && (out + more)[1..] == more
            else
              && i == 1 + FirstRaising(translate, more)
              && (!p.raised ==> [translate(out[0]).value] + p.results == Translated(translate, out + more))
              && (p.raised ==> (out + more)[i + 1..] == more[i..])
  {
    if out != [] {
      assert (out + more)[1..] == more;
    } else {
      assert out + more == more;
    }
  }

  // ---- reading on ------------------------------------------------------------------

  /** The messages of a list of reads, one call each, for a caller that reads on when one raises. */
  function Reads<M>(translate: Response -> Option<M>, buffer: seq<byte>, chunks: seq<seq<byte>>): seq<M>
    decreases chunks
  {
    if chunks == [] then []
    else
      var p := Parse(translate, buffer + chunks[0]);
      p.results + Reads(translate, p.rest, chunks[1..])
  }

  /** As long as no response of the stream raises, the messages do not depend on its cutting. */
  lemma {:induction false} ReadsIgnoreTheCutting<M>(translate: Response -> Option<M>, buffer: seq<byte>,
                                                    chunks: seq<seq<byte>>)
    requires Settled(FORMAT, buffer)
    requires var frames := Decode(FORMAT, buffer + Flatten(chunks)).frames;
             FirstRaising(translate, frames) == |frames|
    ensures Reads(translate, buffer, chunks)
         == Translated(translate, Decode(FORMAT, buffer + Flatten(chunks)).frames)
    decreases chunks
  {
    hide Decode, Parse, FORMAT, FirstRaising, Translated;
    if chunks == [] {
      assert buffer + Flatten(chunks) == buffer;
      NothingRaises(translate);
    } else {
      var whole, tail := buffer + chunks[0], chunks[1..];
      var d := Decode(FORMAT, whole);
      assert whole + Flatten(tail) == buffer + Flatten(chunks);
      SplitLaw(FORMAT, whole, Flatten(tail));
      RestIsSettled(FORMAT, whole);
      var more := Decode(FORMAT, d.rest + Flatten(tail)).frames;
      NoneRaises(translate, d.frames, more);
      TranslatedConcat(translate, d.frames, more);
      ParseIsAllOrNothing(translate, whole);
      ReadsIgnoreTheCutting(translate, d.rest, tail);
    }
  }

  lemma NoneRaises<M>(translate: Response -> Option<M>, a: seq<Response>, b: seq<Response>)
    requires FirstRaising(translate, a + b) == |a + b|
    ensures FirstRaising(translate, a) == |a| && FirstRaising(translate, b) == |b|
  {
    hide FirstRaising;
    assert forall j | 0 <= j < |a| :: (a + b)[j] == a[j];
    assert forall j | 0 <= j < |b| :: (a + b)[|a| + j] == b[j];
  }

  lemma ShortStays(s: seq<byte>)
    ensures |s| < MIN_FRAME_LEN ==> Decode(FORMAT, s) == Decoded([], s)
  {
  }
}
