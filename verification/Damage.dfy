/** What line noise does to a v2 stream: damaged frames vanish, the others survive. */
module Damage {
  import opened Crc
  import opened Framing
  import opened ByteArrays
  import opened AceProtocolV2
  import opened Wrappers

  /** One frame as it arrives: whole, or with a burst of at most two adjacent bytes
      overwritten, anywhere from the flags to the checksum. Preamble, length byte and end
      marker are intact in either case. */
  datatype Item =
    | Intact(frame: Frame)
    | Damaged(frame: Frame, at: nat, burst: seq<byte>)
  {
    predicate Valid() {
      && frame.Valid()
      && (Damaged? ==>
            && 1 <= |burst| <= 2
            && at + |burst| <= |Body(frame)|
            && (at + |burst| <= LENGTH_AT || LENGTH_AT < at)
            && burst != Body(frame)[at..at + |burst|])
    }

    /** What arrives between the preamble and the end marker. */
    function Received(): (r: seq<byte>)
      requires Valid()
      ensures |r| == |Body(frame)|
    {
      match this
      case Intact(_) => Body(frame)
      case Damaged(_, _, _) => Body(frame)[..at] + burst + Body(frame)[at + |burst|..]
    }

    function Inner(): seq<byte>
      requires Valid()
    {
      Received()[..|Received()| - 2]
    }

    function Checksum(): bv16
      requires Valid()
    {
      WordOf(Received()[|Received()| - 2], Received()[|Received()| - 1])
    }

    function Bytes(): seq<byte>
      requires Valid()
    {
      [0xFF, 0xAA] + Received() + [END_MARKER]
    }

    function Yield(): seq<Response> {
      if Intact? then frame.Yield() else []
    }
  }

  /** The checksummed part with its checksum. */
  function Body(f: Frame): (r: seq<byte>)
    requires f.Valid()
    ensures |r| == |f.Inner()| + 2
  {
    f.Inner() + [LoByte(Kermit(f.Inner())), HiByte(Kermit(f.Inner()))]
  }

  /** Where the length byte sits in the checksummed part. */
  const LENGTH_AT: nat := 4

  predicate ValidItems(items: seq<Item>) {
    forall i | 0 <= i < |items| :: items[i].Valid()
  }

  function Stream(items: seq<Item>): seq<byte>
    requires ValidItems(items)
    decreases items
  {
    if items == [] then [] else items[0].Bytes() + Stream(items[1..])
  }

  function Yields(items: seq<Item>): seq<Response>
    decreases items
  {
    if items == [] then [] else items[0].Yield() + Yields(items[1..])
  }

  // ---- one packet -----------------------------------------------------------

  lemma WordOfBytes(w: bv16)
    ensures WordOf(LoByte(w), HiByte(w)) == w
  {
  }

  lemma BytesOfWord(lo: byte, hi: byte)
    ensures LoByte(WordOf(lo, hi)) == lo && HiByte(WordOf(lo, hi)) == hi
  {
  }

  /** What a protocol-sized packet means. */
  lemma JudgeOfPacket(inner: seq<byte>, crc: bv16)
    requires LENGTH_AT < |inner|
    ensures Judge(Packet(inner, crc)) ==
              if crc != Kermit(inner) || inner[0] & FLAG_RESPONSE == 0 then Drop
              else Emit(Response(inner[3], WordOf(inner[1], inner[2]), inner[LENGTH_AT + 1..]))
  {
    hide WordOf, LoByte, HiByte, Kermit;
    var packet := Packet(inner, crc);
    var n := |packet|;
    WordOfBytes(crc);
    assert packet[2..n - 3] == inner;
    assert packet[HEADER_LEN..n - 3] == inner[LENGTH_AT + 1..];
  }

  /** A packet in front of anything is consumed whole in one turn. */
  lemma TurnOnPacket(inner: seq<byte>, crc: bv16, rest: seq<byte>)
    requires LENGTH_AT < |inner| == LENGTH_AT + 1 + ToNat(inner[LENGTH_AT])
    requires ToNat(inner[LENGTH_AT]) <= MAX_PAYLOAD_LEN
    ensures Turn(Packet(inner, crc) + rest) ==
              Next(rest, if crc != Kermit(inner) || inner[0] & FLAG_RESPONSE == 0 then []
                         else [Response(inner[3], WordOf(inner[1], inner[2]), inner[LENGTH_AT + 1..])])
  {
    hide WordOf, LoByte, HiByte, Kermit, ToNat, Judge;
    var packet := Packet(inner, crc);
    var t := packet + rest;
    JudgeOfPacket(inner, crc);
    assert t[6] == inner[LENGTH_AT];
    assert t[..|packet|] == packet && t[|packet|..] == rest;
  }

  /** The length byte is none of those that are hit. */
  lemma LengthArrives(item: Item)
    requires item.Valid()
    ensures LENGTH_AT < |item.Received()| - 2
    ensures item.Received()[LENGTH_AT] == item.frame.Inner()[LENGTH_AT] == Low8(|item.frame.payload|)
  {
    hide Low8, LoByte, HiByte, Kermit;
    var body := Body(item.frame);
    assert body[LENGTH_AT] == item.frame.Inner()[LENGTH_AT] == Low8(|item.frame.payload|);
    hide Body, Frame.Inner;
    if item.Damaged? {
      BurstMisses(body, item.at, item.burst, LENGTH_AT);
    }
  }

  lemma BurstMisses(body: seq<byte>, at: nat, burst: seq<byte>, i: nat)
    requires at + |burst| <= |body| && i < |body| && (at + |burst| <= i || i < at)
    ensures (body[..at] + burst + body[at + |burst|..])[i] == body[i]
  {
  }

  lemma InnerHasLength(item: Item)
    requires item.Valid()
    ensures |item.Inner()| == |item.frame.Inner()| == LENGTH_AT + 1 + |item.frame.payload|
    ensures ToNat(item.Inner()[LENGTH_AT]) == |item.frame.payload|
  {
    hide Low8, ToNat, LoByte, HiByte, Kermit, Item.Received;
    LengthArrives(item);
    ToNatLow8(|item.frame.payload|);
  }

  lemma BytesArePacket(item: Item)
    requires item.Valid()
    ensures item.Bytes() == Packet(item.Inner(), item.Checksum())
  {
    hide LoByte, HiByte, WordOf, Body, Item.Received;
    SplitPacket(item.Received());
  }

  lemma SplitPacket(r: seq<byte>)
    requires |r| >= 2
    ensures var n := |r| - 2;
            [0xFF, 0xAA] + r + [END_MARKER] == Packet(r[..n], WordOf(r[n], r[n + 1]))
  {
    hide LoByte, HiByte, WordOf;
    var n := |r| - 2;
    BytesOfWord(r[n], r[n + 1]);
    assert r == r[..n] + [r[n], r[n + 1]];
  }

  lemma IntactInner(item: Item)
    requires item.Valid() && item.Intact?
    ensures item.Inner() == item.frame.Inner()
  {
    hide LoByte, HiByte, Kermit, Frame.Inner;
  }

  lemma {:induction false} ZeroStays(n: nat)
    ensures ShiftBits(0, n) == 0
    decreases n
  {
    if n > 0 {
      assert ShiftBit(0) == 0;
      ZeroStays(n - 1);
    }
  }

  /** Running the checksum over its own bytes leaves zero. */
  lemma ResidueIsZero(c: bv16)
    ensures KermitFrom(c, [LoByte(c), HiByte(c)]) == 0
  {
    hide KermitStep, LoByte, HiByte, Word, Xor, ShiftBits;
    var l, h := LoByte(c), HiByte(c);
    assert [l, h][1..] == [h] && [h][1..] == [];
    assert KermitFrom(c, [l, h]) == KermitFrom(KermitStep(c, l), [h]) == KermitStep(KermitStep(c, l), h);
    TwoStepsAsOne(c, l, h);
    OwnBytesCancel(c);
    ZeroStays(8);
  }

  lemma OwnBytesCancel(c: bv16)
    ensures Xor(c, Word(LoByte(c), HiByte(c))) == 0
  {
  }

  /** So the two checksum bytes match exactly when the checksum over all leaves zero. */
  lemma MatchIsZeroResidue(inner: seq<byte>, l: byte, h: byte)
    ensures WordOf(l, h) == Kermit(inner) <==> Kermit(inner + [l, h]) == 0
  {
    hide KermitFrom, LoByte, HiByte, WordOf;
    var c := Kermit(inner);
    KermitFromConcat(CRC_INIT, inner, [l, h]);
    ResidueIsZero(c);
    WordOfBytes(c);
    BytesOfWord(l, h);
    if Kermit(inner + [l, h]) == 0 {
      ShortInputInjective(c, [l, h], [LoByte(c), HiByte(c)]);
      assert [l, h][0] == LoByte(c) && [l, h][1] == HiByte(c);
    }
  }

  /** A burst leaves a residue, wherever it hits. */
  lemma BurstLeavesResidue(item: Item)
    requires item.Valid()
    ensures Kermit(item.Received()) == 0 <==> item.Intact?
  {
    hide KermitFrom, LoByte, HiByte, Frame.Inner;
    var sent, c := Body(item.frame), Kermit(item.frame.Inner());
    WordOfBytes(c);
    MatchIsZeroResidue(item.frame.Inner(), LoByte(c), HiByte(c));
    hide Body;
    if item.Damaged? {
      var end := item.at + |item.burst|;
      BurstDetected(sent[..item.at], item.burst, sent[item.at..end], sent[end..]);
      assert sent[..item.at] + sent[item.at..end] + sent[end..] == sent;
    }
  }

  /** Damage to a frame, to its checksum, or across the border between them: the checksum
      that arrives matches what arrives exactly when nothing changed. */
  lemma ChecksumTells(item: Item)
    requires item.Valid()
    ensures item.Checksum() == Kermit(item.Inner()) <==> item.Intact?
  {
    hide Kermit, WordOf, Item.Received, Body;
    BurstLeavesResidue(item);
    var r := item.Received();
    var n := |r| - 2;
    assert r == r[..n] + [r[n], r[n + 1]];
    MatchIsZeroResidue(r[..n], r[n], r[n + 1]);
  }

  lemma ItemTurn(item: Item, rest: seq<byte>)
    requires item.Valid()
    ensures Turn(item.Bytes() + rest) == Next(rest, item.Yield())
  {
    hide Turn, Kermit, ToNat, LoByte, HiByte, Low8, WordOf, Item.Bytes, Item.Inner, Item.Checksum, Item.Received;
    InnerHasLength(item);
    BytesArePacket(item);
    ChecksumTells(item);
    TurnOnPacket(item.Inner(), item.Checksum(), rest);
    if item.Intact? {
      IntactInner(item);
      var f := item.frame;
      var inner := f.Inner();
      WordOfBytes(f.seqNo);
      assert inner[0] == f.flags && inner[1] == LoByte(f.seqNo) && inner[2] == HiByte(f.seqNo) && inner[3] == f.cmd;
      assert inner[LENGTH_AT + 1..] == f.payload;
    } else {
      hide Frame.Inner;
    }
  }

  // ---- the stream -----------------------------------------------------------

  lemma FindAfterJunk(junk: seq<byte>, t: seq<byte>)
    requires 0xFF !in junk && PreambleAt(t, 0)
    ensures FindPreamble(junk + t) == |junk|
    ensures (junk + t)[|junk|..] == t
  {
    hide FindPreamble;
    assert PreambleAt(junk + t, |junk|);
    assert forall i | 0 <= i < |junk| :: (junk + t)[i] in junk;
  }

  /** Junk, then frames of which any number are damaged: exactly the undamaged
      responses come out, in order, requests are swallowed, and nothing is left over. */
  lemma {:induction false} DamageIsIsolated(junk: seq<byte>, items: seq<Item>)
    requires 0xFF !in junk && ValidItems(items)
    ensures Decode(FORMAT, junk + Stream(items)) ==
              Decoded(Yields(items), if items == [] && |junk| < MIN_FRAME_LEN then junk else [])
    decreases items
  {
    hide Decode, Turn, PreambleAt, FindPreamble;
    if items == [] {
      assert junk + Stream(items) == junk;
      OnlyJunk(junk);
    } else {
      var tail := Stream(items[1..]);
      var t := items[0].Bytes() + tail;
      assert Stream(items) == t;
      assert PreambleAt(t, 0) && |t| >= MIN_FRAME_LEN by { StartsAPacket(items[0], tail); }
      FindAfterJunk(junk, t);
      LoopTurn(junk + t);
      ItemTurn(items[0], tail);
      DamageIsIsolated([], items[1..]);
      assert [] + tail == tail;
    }
  }

  lemma StartsAPacket(item: Item, rest: seq<byte>)
    requires item.Valid()
    ensures PreambleAt(item.Bytes() + rest, 0) && |item.Bytes()| >= MIN_FRAME_LEN
  {
    InnerHasLength(item);
  }

  lemma OnlyJunk(junk: seq<byte>)
    requires 0xFF !in junk
    ensures Decode(FORMAT, junk) == Decoded([], if |junk| < MIN_FRAME_LEN then junk else [])
  {
    if |junk| >= MIN_FRAME_LEN {
      hide Decode;
      assert FindPreamble(junk) < 0;
      assert junk[|junk| - 1] in junk;
      LoopTurn(junk);
    } else {
      ShortStays(junk);
    }
  }

  /** The same in pieces: no cutting of the noisy stream into reads changes the outcome. */
  lemma DamageIsIsolatedInChunks(junk: seq<byte>, items: seq<Item>, chunks: seq<seq<byte>>)
    requires 0xFF !in junk && ValidItems(items)
    requires Flatten(chunks) == junk + Stream(items)
    ensures Feed(FORMAT, [], chunks).frames == Yields(items)
  {
    ShortStays([]);
    ChunkingIsInvisible(FORMAT, [], chunks);
    assert [] + Flatten(chunks) == junk + Stream(items);
    DamageIsIsolated(junk, items);
  }

  /** When a good response is followed by one that the translator raises on, the cutting decides:
      read together, both are lost; read apart, the good one comes through. */
  lemma RaisingLosesTheRead<M>(translate: Response -> Option<M>, good: Frame, bad: Frame)
    requires good.Valid() && bad.Valid() && |good.Yield()| == 1 && |bad.Yield()| == 1
    requires translate(good.Yield()[0]).Some? && translate(bad.Yield()[0]).None?
    ensures Reads(translate, [], [good.Wire() + bad.Wire()]) == []
    ensures Reads(translate, [], [good.Wire(), bad.Wire()]) == [translate(good.Yield()[0]).value]
  {
    hide Parse, Decode, FORMAT, Frame.Wire, Frame.Yield;
    var a, b := good.Wire(), bad.Wire();
    OneFrame(good);
    OneFrame(bad);
    TwoFrames(good, bad);
    ParseIsAllOrNothing(translate, a + b);
    ParseIsAllOrNothing(translate, a);
    ParseIsAllOrNothing(translate, b);
    assert [] + (a + b) == a + b && [] + a == a && [] + b == b;
    assert [a + b][1..] == [] && [a, b][1..] == [b] && [b][1..] == [];
    assert FirstRaising(translate, good.Yield()) == 1;
    assert Translated(translate, good.Yield()) == [translate(good.Yield()[0]).value];
    assert Reads(translate, [], [a, b]) == Parse(translate, a).results + Reads(translate, [], [b]);
    assert Reads(translate, [], [b]) == Parse(translate, b).results + Reads(translate, Parse(translate, b).rest, []);
  }

  lemma WireIsBytes(f: Frame)
    requires f.Valid()
    ensures Intact(f).Bytes() == f.Wire()
  {
    hide Kermit, LoByte, HiByte, Frame.Inner;
  }

  lemma OneFrame(f: Frame)
    requires f.Valid()
    ensures Decode(FORMAT, f.Wire()) == Decoded(f.Yield(), [])
  {
    hide Decode, FORMAT, Frame.Wire, Frame.Yield, Item.Bytes;
    WireIsBytes(f);
    var items := [Intact(f)];
    assert items[1..] == [];
    DamageIsIsolated([], items);
    assert [] + Stream(items) == f.Wire() && Yields(items) == f.Yield();
  }

  lemma TwoFrames(f: Frame, g: Frame)
    requires f.Valid() && g.Valid()
    ensures Decode(FORMAT, f.Wire() + g.Wire()) == Decoded(f.Yield() + g.Yield(), [])
  {
    hide Decode, FORMAT, Frame.Wire, Frame.Yield, Item.Bytes;
    WireIsBytes(f);
    WireIsBytes(g);
    var items := [Intact(f), Intact(g)];
    assert items[1..] == [Intact(g)] && [Intact(g)][1..] == [];
    DamageIsIsolated([], items);
    assert Stream([Intact(g)]) == g.Wire() + Stream([]) && Stream(items) == f.Wire() + Stream([Intact(g)]);
    assert Yields([Intact(g)]) == g.Yield() + Yields([]) && Yields(items) == f.Yield() + Yields([Intact(g)]);
    assert [] + Stream(items) == f.Wire() + g.Wire();
  }

  // ---- finding the way back --------------------------------------------------------

  /** What becomes of a complete packet. */
  lemma JudgeLaw(packet: seq<byte>)
    requires |packet| >= 10
    ensures var n := |packet| - 10;
            Judge(packet)
            == if packet[n + 9] != 0xFE then Resync
               else if WordOf(packet[n + 7], packet[n + 8]) == Kermit(packet[2..n + 7]) && packet[2] >= 0x80 then
                 Emit(Response(packet[5], WordOf(packet[3], packet[4]), packet[7..n + 7]))
               else Drop
  {
    hide Kermit, WordOf;
    TopBit(packet[2]);
  }

  /** The response that the packet at the start of `s` holds, if it is a correct one of `n` payload bytes. */
  function CorrectResponse(s: seq<byte>, n: nat): seq<Response>
    requires n + 10 <= |s|
  {
    if WordOf(s[n + 7], s[n + 8]) == Kermit(s[2..n + 7]) && s[2] >= 0x80 then
      [Response(s[5], WordOf(s[3], s[4]), s[7..n + 7])]
    else []
  }

  lemma TurnLaw(s: seq<byte>)
    requires |s| >= 10
    ensures var n := ToNat(s[6]);
            Turn(s)
            == if n > 100 then Next(s[2..], [])
               else if n + 10 > |s| then Halt(s)
               else if s[n + 9] != 0xFE then Next(s[2..], [])
               else Next(s[n + 10..], CorrectResponse(s, n))
  {
    hide Kermit, WordOf, ToNat, Judge;
    var n := ToNat(s[6]);
    if n <= 100 && n + 10 <= |s| {
      JudgeLaw(s[..n + 10]);
      PacketParts(s, n);
    }
  }

  /** Everything the parser does with a buffer that starts with a preamble, byte by byte. */
  lemma PacketLaw(s: seq<byte>)
    requires |s| >= 10 && s[0] == 0xFF && s[1] == 0xAA
    ensures var n := ToNat(s[6]);
            if n > 100 || (n + 10 <= |s| && s[n + 9] != 0xFE) then
              Decode(FORMAT, s) == Decode(FORMAT, s[2..])
            else if n + 10 > |s| then
              Decode(FORMAT, s) == Decoded([], s)
            else
              var after := Decode(FORMAT, s[n + 10..]);
              Decode(FORMAT, s) == Decoded(CorrectResponse(s, n) + after.frames, after.rest)
  {
    hide Decode, FORMAT, ToNat, FindPreamble, Turn, CorrectResponse;
    assert PreambleAt(s, 0) && FindPreamble(s) == 0 && s[0..] == s;
    LoopTurn(s);
    TurnLaw(s);
    NothingBefore(Decode(FORMAT, s[2..]));
  }

  lemma PacketParts(s: seq<byte>, n: nat)
    requires n + 10 <= |s|
    ensures s[..n + 10][2..n + 7] == s[2..n + 7] && s[..n + 10][7..n + 7] == s[7..n + 7]
  {
  }

  lemma NothingBefore<T>(d: Decoded<T>)
    ensures Decoded([] + d.frames, d.rest) == d
  {
    assert [] + d.frames == d.frames;
  }

  lemma TopBit(b: byte)
    ensures b & 0x80 == 0 <==> b < 0x80
  {
  }

  /**
   * A frame that was cut short, and an intact one behind it: when what arrives
   * announces a length over the limit, or one at whose end there is no end
   * marker, only the preamble is skipped, and the intact frame is found.
   */
  lemma CutFrameHidesNothing(c: seq<byte>, f: Frame, rest: seq<byte>)
    requires f.Valid() && PreambleAt(c, 0) && forall i | i > 0 :: !PreambleAt(c, i)
    requires var s := c + f.Wire();
             var n := ToNat(s[6]);
             n > 100 || (n + 10 <= |s| && s[n + 9] != 0xFE)
    ensures Decode(FORMAT, c + f.Wire() + rest).frames == f.Yield() + Decode(FORMAT, rest).frames
  {
    hide Decode, FORMAT, Kermit, WordOf, ToNat, FindPreamble, Turn, Frame.Yield;
    var s, g := c + f.Wire() + rest, f.Wire() + rest;
    PacketLaw(s);
    assert s[2..] == c[2..] + g;
    forall i | 0 <= i < |c| - 2
      ensures !PreambleAt(c[2..] + g, i)
    {
      assert !PreambleAt(c, i + 2);
    }
    FramesSkipJunk(FORMAT, c[2..] + g, |c| - 2);
    assert (c[2..] + g)[|c| - 2..] == g;
    FrameFirst(f, rest);
  }

  /** An intact frame comes out first, whatever follows. */
  lemma FrameFirst(f: Frame, rest: seq<byte>)
    requires f.Valid()
    ensures Decode(FORMAT, f.Wire() + rest).frames == f.Yield() + Decode(FORMAT, rest).frames
  {
    hide Decode, FORMAT, Turn, Frame.Wire, Frame.Yield, Item.Bytes, FindPreamble;
    var g := f.Wire() + rest;
    WireIsBytes(f);
    ItemTurn(Intact(f), rest);
    StartsAPacket(Intact(f), rest);
    assert FindPreamble(g) == 0 && g[0..] == g;
    LoopTurn(g);
  }

  // ---- nothing is invented -------------------------------------------------------

  /** `r` is the content of a correct response frame lying in `s` at `i`. */
  ghost predicate FramedAt(s: seq<byte>, i: nat, f: Frame, r: Response) {
    && f.Valid()
    && i <= |s|
    && f.Wire() <= s[i..]
    && f.Yield() == [r]
  }

  /** In any byte string whatever, a response that comes out was in there, framed and
      checksummed. */
  lemma {:induction false} NothingInvented(s: seq<byte>, r: Response)
    requires r in Decode(FORMAT, s).frames
    ensures exists i, f :: FramedAt(s, i, f, r)
    decreases |s|
  {
    hide Turn, FindPreamble, FramedAt;
    if |s| >= MIN_FRAME_LEN {
      LoopTurn(s);
      var start := FindPreamble(s);
      if start >= 0 && Turn(s[start..]).Next? {
        var t := s[start..];
        var rest, out := Turn(t).rest, Turn(t).out;
        TurnShrinks(t);
        if r in out {
          StartsAligned(s);
          var f := EmittedFrame(t, r);
          LiesDeeper(s, start, t, 0, f, r);
        } else {
          NothingInvented(rest, r);
          var i, f :| FramedAt(rest, i, f, r);
          LiesDeeper(s, start + |t| - |rest|, rest, i, f, r);
        }
      }
    } else {
      ShortStays(s);
    }
  }

  lemma TurnShrinks(t: seq<byte>)
    requires Turn(t).Next?
    ensures |Turn(t).rest| < |t| && Turn(t).rest == t[|t| - |Turn(t).rest|..]
  {
    hide Judge;
  }

  lemma LiesDeeper(s: seq<byte>, k: nat, t: seq<byte>, i: nat, f: Frame, r: Response)
    requires k <= |s| && t == s[k..]
    requires FramedAt(t, i, f, r)
    ensures FramedAt(s, k + i, f, r)
  {
    assert s[k + i..] == t[i..];
  }

  lemma EmittedFrame(t: seq<byte>, r: Response) returns (f: Frame)
    requires PreambleAt(t, 0) && Turn(t).Next? && r in Turn(t).out
    ensures FramedAt(t, 0, f, r)
  {
    hide WordOf, Kermit, LoByte, HiByte, ToNat, Low8;
    var n := ToNat(t[6]);
    var total := HEADER_LEN + n + TRAILER_LEN;
    f := Frame(t[2], WordOf(t[3], t[4]), t[5], t[HEADER_LEN..total - 3]);
    var packet := t[..total];
    assert packet[2..total - 3] == t[2..total - 3] && packet[HEADER_LEN..total - 3] == t[HEADER_LEN..total - 3];
    InnerRead(t, f);
    BytesOfWord(t[total - 3], t[total - 2]);
    PacketRead(t, total, f.Inner());
    assert t[0..] == t;
  }

  lemma InnerRead(t: seq<byte>, f: Frame)
    requires |t| >= HEADER_LEN && |t| >= HEADER_LEN + ToNat(t[6]) && ToNat(t[6]) <= MAX_PAYLOAD_LEN
    requires f == Frame(t[2], WordOf(t[3], t[4]), t[5], t[HEADER_LEN..HEADER_LEN + ToNat(t[6])])
    ensures f.Inner() == t[2..HEADER_LEN + ToNat(t[6])]
  {
    hide WordOf, LoByte, HiByte, ToNat, Low8;
    BytesOfWord(t[3], t[4]);
    Low8ToNat(t[6]);
  }

  lemma PacketRead(t: seq<byte>, total: nat, inner: seq<byte>)
    requires MIN_FRAME_LEN <= total <= |t| && inner == t[2..total - 3]
    requires PreambleAt(t, 0) && t[total - 1] == END_MARKER
    ensures forall crc | LoByte(crc) == t[total - 3] && HiByte(crc) == t[total - 2] :: Packet(inner, crc) == t[..total]
  {
    hide LoByte, HiByte;
  }
}
