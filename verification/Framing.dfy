/** The resynchronising frame parser that both ACE wire protocols share. */
module Framing {
  import opened Crc

  // A frame is a two-byte preamble, a header holding the payload length, the
  // payload, and a three-byte trailer. The parser hunts for a preamble, waits for
  // the announced length, and then lets the protocol judge the complete packet.

  /** What a protocol says of one complete packet. */
  datatype Verdict<+T> =
    | Resync          // not a frame after all: skip the preamble only
    | Drop            // a frame to be swallowed whole
    | Emit(frame: T)

  const TRAILER_LEN: nat := 3

  /** A protocol: its header length and payload limit, how a header announces the
      payload length, and its judgement of a complete packet. */
  datatype Format<!T> = Format(headerLen: nat, maxPayload: nat,
                               payloadLen: seq<byte> -> nat, judge: seq<byte> -> Verdict<T>)
  {
    function MinLen(): nat {
      headerLen + TRAILER_LEN
    }

    function MaxLen(): nat {
      headerLen + maxPayload + TRAILER_LEN
    }
  }

  predicate PreambleAt(s: seq<byte>, i: int) {
    0 <= i && i + 1 < |s| && s[i] == 0xFF && s[i + 1] == 0xAA
  }

  /** `bytearray.find` for the preamble: its first position, or -1. */
  function FindPreamble(s: seq<byte>): (start: int)
    ensures -1 <= start < |s|
    ensures start >= 0 ==> PreambleAt(s, start)
    ensures forall i | PreambleAt(s, i) :: 0 <= start <= i
  {
    if |s| < 2 then -1
    else if s[0] == 0xFF && s[1] == 0xAA then 0
    else
      var rest := FindPreamble(s[1..]);
      assert forall i | PreambleAt(s, i) :: i > 0 && PreambleAt(s[1..], i - 1);
      if rest < 0 then -1 else rest + 1
  }

  /** What is kept of a buffer without a preamble: a last 0xFF, which may begin one. */
  function Residue(s: seq<byte>): seq<byte> {
    if |s| > 0 && s[|s| - 1] == 0xFF then s[|s| - 1..] else []
  }

  datatype Step<+T> = Halt(rest: seq<byte>) | Next(rest: seq<byte>, out: seq<T>)

  /** One turn of the parser's loop on a buffer that starts with a preamble. */
  function AdvanceAligned<T>(fmt: Format<T>, t: seq<byte>): (step: Step<T>)
    requires PreambleAt(t, 0)
    ensures step.Next? ==> |step.rest| < |t|
    ensures step.Halt? ==> step.rest == t
  {
    if |t| < fmt.headerLen then Halt(t)
    else
      var n := fmt.payloadLen(t[..fmt.headerLen]);
      var total := fmt.headerLen + n + TRAILER_LEN;
      if n > fmt.maxPayload then Next(t[2..], [])
      else if |t| < total then Halt(t)
      else
        match fmt.judge(t[..total])
        case Resync => Next(t[2..], [])
        case Drop => Next(t[total..], [])
        case Emit(frame) => Next(t[total..], [frame])
  }

  /** One turn of the loop on a buffer long enough to hold a frame. */
  function Advance<T>(fmt: Format<T>, s: seq<byte>): (step: Step<T>)
    ensures step.Next? ==> |step.rest| < |s|
  {
    var start := FindPreamble(s);
    if start < 0 then Halt(Residue(s)) else AdvanceAligned(fmt, s[start..])
  }

  datatype Decoded<+T> = Decoded(frames: seq<T>, rest: seq<byte>)

  /** The whole loop: the frames it yields and the bytes it leaves. */
  function Decode<T>(fmt: Format<T>, s: seq<byte>): Decoded<T>
    decreases |s|
  {
    if |s| < fmt.MinLen() then Decoded([], s)
    else
      match Advance(fmt, s)
      case Halt(rest) => Decoded([], rest)
      case Next(rest, out) =>
        var d := Decode(fmt, rest);
        Decoded(out + d.frames, d.rest)
  }

  /** Feeding a stream chunk by chunk into a buffer that already holds `buffer`. */
  function Feed<T>(fmt: Format<T>, buffer: seq<byte>, chunks: seq<seq<byte>>): Decoded<T>
    decreases chunks
  {
    if chunks == [] then Decoded([], buffer)
    else
      var d := Decode(fmt, buffer + chunks[0]);
      var more := Feed(fmt, d.rest, chunks[1..]);
      Decoded(d.frames + more.frames, more.rest)
  }

  function Flatten<T>(parts: seq<seq<T>>): seq<T>
    decreases parts
  {
    if parts == [] then [] else parts[0] + Flatten(parts[1..])
  }

  /** Moving one element across a concatenation. */
  lemma Regroup<T>(a: seq<T>, x: T, b: seq<T>)
    ensures a + ([x] + b) == (a + [x]) + b
  {
  }

  // ---- independence of the cutting -----------------------------------------

  /** Bytes before the first preamble never matter to the frames. */
  lemma FramesSkipJunk<T>(fmt: Format<T>, s: seq<byte>, p: nat)
    requires p <= |s|
    requires forall i | 0 <= i < p :: !PreambleAt(s, i)
    ensures Decode(fmt, s).frames == Decode(fmt, s[p..]).frames
  {
    hide AdvanceAligned, PreambleAt;
    FindInSuffix(s, p);
    var start := FindPreamble(s);
    if start >= 0 && |s| >= fmt.MinLen() && |s[p..]| < fmt.MinLen() {
      ShortBufferIsBarren(fmt, s, start);
    }
  }

  lemma FindInSuffix(s: seq<byte>, p: nat)
    requires p <= |s|
    requires forall i | 0 <= i < p :: !PreambleAt(s, i)
    ensures FindPreamble(s) < 0 ==> FindPreamble(s[p..]) < 0
    ensures FindPreamble(s) >= 0 ==> FindPreamble(s) >= p && FindPreamble(s[p..]) == FindPreamble(s) - p
    ensures FindPreamble(s) >= 0 ==> s[FindPreamble(s)..] == s[p..][FindPreamble(s[p..])..]
  {
    hide FindPreamble, PreambleAt;
    var here, there := FindPreamble(s), FindPreamble(s[p..]);
    if there >= 0 {
      PreambleInSuffix(s, p, there);
    }
    if here >= 0 {
      PreambleInSuffix(s, p, here - p);
    }
  }

  lemma PreambleInSuffix(s: seq<byte>, p: nat, i: int)
    requires p <= |s| && 0 <= i
    ensures PreambleAt(s[p..], i) <==> PreambleAt(s, p + i)
    ensures i <= |s[p..]| ==> s[p..][i..] == s[p + i..]
  {
  }

  lemma PreambleInPrefix(a: seq<byte>, b: seq<byte>, i: int)
    requires i + 1 < |a|
    ensures PreambleAt(a + b, i) <==> PreambleAt(a, i)
  {
  }

  lemma ShortBufferIsBarren<T>(fmt: Format<T>, s: seq<byte>, start: nat)
    requires |s| >= fmt.MinLen() && FindPreamble(s) == start
    requires |s[start..]| < fmt.MinLen()
    ensures Decode(fmt, s).frames == []
  {
    var step := AdvanceAligned(fmt, s[start..]);
    if step.Next? {
      assert |step.rest| < fmt.MinLen() && step.out == [];
    }
  }

  /** Cutting a stream in two changes no frame: what the first part leaves, followed
      by the second part, yields exactly the frames still missing. */
  lemma {:induction false} SplitLaw<T>(fmt: Format<T>, a: seq<byte>, b: seq<byte>)
    ensures Decode(fmt, a + b).frames
         == Decode(fmt, a).frames + Decode(fmt, Decode(fmt, a).rest + b).frames
    decreases |a|
  {
    hide AdvanceAligned, PreambleAt, FindPreamble;
    if |a| >= fmt.MinLen() {
      if Advance(fmt, a).Halt? {
        var rest := Advance(fmt, a).rest;
        var p := |a| - |rest|;
        CleanBefore(a, b, p);
        assert (a + b)[p..] == rest + b;
        FramesSkipJunk(fmt, a + b, p);
      } else {
        AdvanceInPrefix(fmt, a, b);
        var rest, out := Advance(fmt, a).rest, Advance(fmt, a).out;
        SplitLaw(fmt, rest, b);
        assert Decode(fmt, a + b).frames == out + Decode(fmt, rest + b).frames;
      }
    }
  }

  /** More bytes at the end make no preamble appear before the point where the parser stops. */
  lemma CleanBefore(a: seq<byte>, b: seq<byte>, p: nat)
    requires FindPreamble(a) == p || (FindPreamble(a) < 0 && p == |a| - |Residue(a)|)
    ensures forall i | 0 <= i < p :: !PreambleAt(a + b, i)
  {
    hide FindPreamble;
    forall i | 0 <= i < p
      ensures !PreambleAt(a + b, i)
    {
      if i + 1 < |a| {
        PreambleInPrefix(a, b, i);
      }
    }
  }

  lemma FindInPrefix(a: seq<byte>, b: seq<byte>)
    requires FindPreamble(a) >= 0
    ensures FindPreamble(a + b) == FindPreamble(a)
    ensures (a + b)[FindPreamble(a)..] == a[FindPreamble(a)..] + b
  {
    hide FindPreamble;
    var start := FindPreamble(a);
    PreambleInPrefix(a, b, start);
    PreambleInPrefix(a, b, FindPreamble(a + b));
  }

  lemma AdvanceInPrefix<T>(fmt: Format<T>, a: seq<byte>, b: seq<byte>)
    requires Advance(fmt, a).Next?
    ensures Advance(fmt, a + b) == Next(Advance(fmt, a).rest + b, Advance(fmt, a).out)
  {
    hide AdvanceAligned, FindPreamble, Residue;
    FindInPrefix(a, b);
    AdvanceAlignedInPrefix(fmt, a[FindPreamble(a)..], b);
  }

  lemma AdvanceAlignedInPrefix<T>(fmt: Format<T>, t: seq<byte>, b: seq<byte>)
    requires PreambleAt(t, 0) && AdvanceAligned(fmt, t).Next?
    ensures PreambleAt(t + b, 0)
    ensures AdvanceAligned(fmt, t + b) == Next(AdvanceAligned(fmt, t).rest + b, AdvanceAligned(fmt, t).out)
  {
    var n := fmt.payloadLen(t[..fmt.headerLen]);
    assert (t + b)[..fmt.headerLen] == t[..fmt.headerLen];
    assert (t + b)[2..] == t[2..] + b;
    if n <= fmt.maxPayload {
      var total := fmt.headerLen + n + TRAILER_LEN;
      assert (t + b)[..total] == t[..total];
      assert (t + b)[total..] == t[total..] + b;
    }
  }

  /** A buffer in which the parser has nothing left to do. */
  predicate Settled<T>(fmt: Format<T>, buffer: seq<byte>) {
    Decode(fmt, buffer) == Decoded([], buffer)
  }

  /** However the stream is cut into chunks, the frames are those of the whole stream. */
  lemma {:induction false} ChunkingIsInvisible<T>(fmt: Format<T>, buffer: seq<byte>, chunks: seq<seq<byte>>)
    requires Settled(fmt, buffer)
    ensures Feed(fmt, buffer, chunks).frames == Decode(fmt, buffer + Flatten(chunks)).frames
    decreases chunks
  {
    hide Decode;
    if chunks == [] {
      assert buffer + Flatten(chunks) == buffer;
    } else {
      var whole, tail := buffer + chunks[0], chunks[1..];
      SplitLaw(fmt, whole, Flatten(tail));
      assert whole + Flatten(tail) == buffer + Flatten(chunks);
      RestIsSettled(fmt, whole);
      ChunkingIsInvisible(fmt, Decode(fmt, whole).rest, tail);
    }
  }

  /** Parsing what the parser left yields nothing and leaves it as it is. */
  lemma {:induction false} RestIsSettled<T>(fmt: Format<T>, s: seq<byte>)
    ensures Settled(fmt, Decode(fmt, s).rest)
    decreases |s|
  {
    if |s| >= fmt.MinLen() {
      match Advance(fmt, s)
      case Halt(rest) =>
        if |rest| >= fmt.MinLen() {
          assert PreambleAt(rest, 0);
          assert FindPreamble(rest) == 0 && rest[0..] == rest;
        }
      case Next(rest, _) => RestIsSettled(fmt, rest);
    }
  }

  /** The buffer never holds as much as one frame of maximal size. */
  lemma {:induction false} RestIsBounded<T>(fmt: Format<T>, s: seq<byte>)
    requires fmt.headerLen > 0
    ensures |Decode(fmt, s).rest| < fmt.MaxLen()
    decreases |s|
  {
    if |s| >= fmt.MinLen() {
      match Advance(fmt, s)
      case Halt(rest) =>
      case Next(rest, _) => RestIsBounded(fmt, rest);
    }
  }
}
