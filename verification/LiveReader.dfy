/** The live reader: the v1 parser inlined, each message going to the callback that waits for its id. */
module LiveReader {
  import opened Crc
  import opened Framing
  import opened AceProtocolV1
  import opened Wrappers

  /**
   * What looking up a message's callback finds: an id to look for, an id no
   * callback can have, or an exception, as for JSON that is not an object.
   */
  datatype Ident = Key(id: int) | NoKey | Raises

  /** The callbacks left, those called, and whether an exception ended it. */
  datatype Handout<C, M> = Handout(waiting: map<int, C>, sent: seq<(C, M)>, stopped: bool)

  /** One message: its id's callback is taken off the map, or nobody waits for it. */
  function DispatchOne<C, M>(waiting: map<int, C>, idOf: M -> Ident, m: M): Handout<C, M> {
    match idOf(m)
    case Key(id) =>
      if id in waiting then Handout(waiting - {id}, [(waiting[id], m)], false) else Handout(waiting, [], false)
    case NoKey => Handout(waiting, [], false)
    case Raises => Handout(waiting, [], true)
  }

  /** Messages in order, up to the first that raises. */
  function Dispatch<C, M>(waiting: map<int, C>, idOf: M -> Ident, msgs: seq<M>): Handout<C, M>
    decreases msgs
  {
    if msgs == [] then Handout(waiting, [], false)
    else
      var first := DispatchOne(waiting, idOf, msgs[0]);
      if first.stopped then first else Then(first, Dispatch(first.waiting, idOf, msgs[1..]))
  }

  function Then<C, M>(first: Handout<C, M>, second: Handout<C, M>): Handout<C, M> {
    Handout(second.waiting, first.sent + second.sent, second.stopped)
  }

  lemma {:induction false} DispatchConcat<C, M>(waiting: map<int, C>, idOf: M -> Ident, a: seq<M>, b: seq<M>)
    ensures var first := Dispatch(waiting, idOf, a);
            Dispatch(waiting, idOf, a + b)
            == if first.stopped then first else Then(first, Dispatch(first.waiting, idOf, b))
    decreases a
  {
    hide DispatchOne;
    if a == [] {
      assert a + b == b;
    } else {
      var one := DispatchOne(waiting, idOf, a[0]);
      assert (a + b)[1..] == a[1..] + b && (a + b)[0] == a[0];
      DispatchConcat(one.waiting, idOf, a[1..], b);
      var rest := Dispatch(one.waiting, idOf, a[1..]);
      Associate(one.sent, rest.sent, Dispatch(rest.waiting, idOf, b).sent);
    }
  }

  /** The first message that raises, or the number of messages. */
  function FirstRaising<M>(idOf: M -> Ident, msgs: seq<M>): (i: nat)
    ensures i <= |msgs|
    ensures forall j | 0 <= j < i :: !idOf(msgs[j]).Raises?
    ensures i < |msgs| ==> idOf(msgs[i]).Raises?
    decreases msgs
  {
    if msgs == [] || idOf(msgs[0]).Raises? then 0 else 1 + FirstRaising(idOf, msgs[1..])
  }

  /** Dispatching stops exactly at the first message that raises. */
  lemma {:induction false} StopsAtFirst<C, M>(waiting: map<int, C>, idOf: M -> Ident, msgs: seq<M>)
    ensures var i, d := FirstRaising(idOf, msgs), Dispatch(waiting, idOf, msgs);
            && (d.stopped <==> i < |msgs|)
            && d == Dispatch(waiting, idOf, msgs[..i]).(stopped := i < |msgs|)
    decreases msgs
  {
    if msgs != [] && !idOf(msgs[0]).Raises? {
      var one, i := DispatchOne(waiting, idOf, msgs[0]), FirstRaising(idOf, msgs);
      StopsAtFirst(one.waiting, idOf, msgs[1..]);
      assert msgs[..i][1..] == msgs[1..][..i - 1];
    }
  }

  lemma Associate<T>(a: seq<T>, b: seq<T>, c: seq<T>)
    ensures a + (b + c) == (a + b) + c
  {
  }

  lemma DispatchSnoc<C, M>(waiting: map<int, C>, idOf: M -> Ident, msgs: seq<M>, m: M)
    requires !Dispatch(waiting, idOf, msgs).stopped
    ensures var before := Dispatch(waiting, idOf, msgs);
            Dispatch(waiting, idOf, msgs + [m]) == Then(before, DispatchOne(before.waiting, idOf, m))
  {
    hide DispatchOne;
    DispatchConcat(waiting, idOf, msgs, [m]);
    var left := Dispatch(waiting, idOf, msgs).waiting;
    var one := DispatchOne(left, idOf, m);
    assert Dispatch(one.waiting, idOf, [m][1..]) == Handout(one.waiting, [], false);
    assert one.sent + [] == one.sent;
  }

  /** An exception at the message after `msgs`: whatever follows is not dispatched. */
  lemma RaisesHere<C, M>(waiting: map<int, C>, idOf: M -> Ident, msgs: seq<M>, m: M, more: seq<M>)
    requires !Dispatch(waiting, idOf, msgs).stopped && idOf(m).Raises?
    ensures Dispatch(waiting, idOf, msgs + [m] + more) == Dispatch(waiting, idOf, msgs).(stopped := true)
    ensures FirstRaising(idOf, msgs + [m] + more) == |msgs|
  {
    hide Dispatch;
    StopsAtFirst(waiting, idOf, msgs);
    var all := msgs + [m] + more;
    StopsAtFirst(waiting, idOf, all);
    var i := FirstRaising(idOf, all);
    assert all[|msgs|] == m;
    assert forall j | 0 <= j < |msgs| :: all[j] == msgs[j];
    assert i == |msgs|;
    assert all[..i] == msgs && msgs[..|msgs|] == msgs;
  }

  /** Message `i` is the first with its id. */
  predicate FirstOfItsId<M(==)>(idOf: M -> Ident, msgs: seq<M>, i: nat)
    requires i < |msgs|
  {
    idOf(msgs[i]).Key? && forall j | 0 <= j < i :: idOf(msgs[j]) != idOf(msgs[i])
  }

  /** Each callback with the first message that has its id, in the order of the messages. */
  function Answers<C, M(==)>(waiting: map<int, C>, idOf: M -> Ident, msgs: seq<M>): seq<(C, M)>
    decreases msgs
  {
    if msgs == [] then []
    else
      var last := |msgs| - 1;
      Answers(waiting, idOf, msgs[..last])
      + if FirstOfItsId(idOf, msgs, last) && idOf(msgs[last]).id in waiting
        then [(waiting[idOf(msgs[last]).id], msgs[last])] else []
  }

  /** So every callback is called at most once, with its own answer, and goes on waiting until then. */
  lemma {:induction false} EachIsAnsweredOnce<C, M>(waiting: map<int, C>, idOf: M -> Ident, msgs: seq<M>)
    requires FirstRaising(idOf, msgs) == |msgs|
    ensures var d := Dispatch(waiting, idOf, msgs);
            && !d.stopped && d.sent == Answers(waiting, idOf, msgs)
            && (forall id :: id in d.waiting <==> id in waiting && forall m <- msgs :: idOf(m) != Key(id))
            && (forall id <- d.waiting :: d.waiting[id] == waiting[id])
    decreases msgs
  {
    hide FirstRaising, Dispatch;
    if msgs == [] {
      NothingToDispatch(waiting, idOf);
    } else {
      var init, m := msgs[..|msgs| - 1], msgs[|msgs| - 1];
      assert msgs == init + [m];
      assert forall j | 0 <= j < |init| :: msgs[j] == init[j];
      EachIsAnsweredOnce(waiting, idOf, init);
      DispatchSnoc(waiting, idOf, init, m);
    }
  }

  lemma NothingToDispatch<C, M>(waiting: map<int, C>, idOf: M -> Ident)
    ensures Dispatch(waiting, idOf, []) == Handout(waiting, [], false)
  {
  }

  class Reader<C, M> {
    var readBuffer: seq<byte>
    var callbackMap: map<int, C>
    const json: seq<byte> -> Option<M>
    const idOf: M -> Ident

    constructor (json: seq<byte> -> Option<M>, idOf: M -> Ident)
      ensures readBuffer == [] && callbackMap == map[] && this.json == json && this.idOf == idOf
    {
      this.json := json;
      this.idOf := idOf;
      readBuffer := [];
      callbackMap := map[];
    }

    /** The last lines of `_process_data`, for one parsed message. */
    method Deliver(ret: M) returns (sent: seq<(C, M)>, raised: bool)
      modifies this`callbackMap
      ensures Handout(callbackMap, sent, raised) == DispatchOne(old(callbackMap), idOf, ret)
    {
      sent, raised := [], false;
      match idOf(ret)
      case Raises =>
        raised := true;
      case NoKey =>
      case Key(msgId) =>
        if msgId in callbackMap {
          var callback := callbackMap[msgId];
          callbackMap := callbackMap - {msgId};
          sent := [(callback, ret)];
        }
    }

    /**
     * `_process_data`: the deliveries are those of the v1 parser's messages, in
     * order, up to the first that raises. In that case the buffer still holds
     * exactly the messages after it.
     */
    method ProcessData(rawBytes: seq<byte>) returns (delivered: seq<(C, M)>, raised: bool)
      modifies this
      ensures var d := Decode(FormatOf(json), old(readBuffer) + rawBytes);
              && Handout(callbackMap, delivered, raised) == Dispatch(old(callbackMap), idOf, d.frames)
              && (!raised ==> readBuffer == d.rest)
              && (raised ==>
                    FirstRaising(idOf, d.frames) < |d.frames|
                    && Decode(FormatOf(json), readBuffer)
                       == Decoded(d.frames[FirstRaising(idOf, d.frames) + 1..], d.rest))
    {
      hide Decode, PreambleAt, FindPreamble, PayloadLen, FormatOf, DispatchOne, Dispatch, FirstRaising;
      hide Answers, FirstOfItsId, Then;
      readBuffer := readBuffer + rawBytes;
      delivered, raised := [], false;
      ghost var fmt := FormatOf(json);
      ghost var whole := Decode(fmt, readBuffer);
      ghost var seen: seq<M> := [];
      NothingToDispatch(callbackMap, idOf);
      while |readBuffer| >= 7
        invariant whole == Decoded(seen + Decode(fmt, readBuffer).frames, Decode(fmt, readBuffer).rest)
        invariant Handout(callbackMap, delivered, false) == Dispatch(old(callbackMap), idOf, seen)
        decreases |readBuffer|
      {
        LoopTurn(json, readBuffer);
        var start := FindPreamble(readBuffer);
        if start < 0 {
          readBuffer := if readBuffer[|readBuffer| - 1] == 0xFF then readBuffer[|readBuffer| - 1..] else [];
          break;
        }
        readBuffer := readBuffer[start..];
        if |readBuffer| < 4 {
          break;
        }
        var payloadLen := PayloadLen(readBuffer);
        if payloadLen > 2048 {
          readBuffer := readBuffer[2..];
          continue;
        }
        var totalLen := 4 + payloadLen + 2 + 1;
        if |readBuffer| < totalLen {
          break;
        }
        var payload := readBuffer[4..4 + payloadLen];
        readBuffer := readBuffer[totalLen..];
        match json(payload)
        case None =>
        case Some(ret) =>
          ghost var more := Decode(fmt, readBuffer).frames;
          Regroup(seen, ret, more);
          var sent, stopped := Deliver(ret);
          if stopped {
            StopHere(old(callbackMap), idOf, seen, ret, more, whole.frames);
            raised := true;
            return;
          }
          DeliverOneMore(old(callbackMap), idOf, seen, ret, delivered, sent, callbackMap);
          seen := seen + [ret];
          delivered := delivered + sent;
      }
      ShortStays(json, readBuffer);
      assert seen == whole.frames;
    }
  }

  lemma DeliverOneMore<C, M>(waiting: map<int, C>, idOf: M -> Ident, seen: seq<M>, m: M,
                             delivered: seq<(C, M)>, sent: seq<(C, M)>, left: map<int, C>)
    requires Dispatch(waiting, idOf, seen) == Handout(Dispatch(waiting, idOf, seen).waiting, delivered, false)
    requires DispatchOne(Dispatch(waiting, idOf, seen).waiting, idOf, m) == Handout(left, sent, false)
    ensures Dispatch(waiting, idOf, seen + [m]) == Handout(left, delivered + sent, false)
  {
    hide Dispatch, DispatchOne;
    DispatchSnoc(waiting, idOf, seen, m);
  }

  lemma StopHere<C, M>(waiting: map<int, C>, idOf: M -> Ident, seen: seq<M>, m: M, more: seq<M>, all: seq<M>)
    requires all == seen + [m] + more && !Dispatch(waiting, idOf, seen).stopped
    requires DispatchOne(Dispatch(waiting, idOf, seen).waiting, idOf, m).stopped
    ensures FirstRaising(idOf, all) == |seen| < |all| && all[|seen| + 1..] == more
    ensures DispatchOne(Dispatch(waiting, idOf, seen).waiting, idOf, m)
         == Handout(Dispatch(waiting, idOf, seen).waiting, [], true)
    ensures Dispatch(waiting, idOf, all) == Dispatch(waiting, idOf, seen).(stopped := true)
  {
    hide Dispatch, FirstRaising;
    RaisesHere(waiting, idOf, seen, m, more);
  }

  /** The effect of a list of reads, one `_process_data` call each, until one raises. */
  function ProcessAll<C, M>(json: seq<byte> -> Option<M>, idOf: M -> Ident,
                            buffer: seq<byte>, waiting: map<int, C>, chunks: seq<seq<byte>>)
    : Handout<C, M>
    decreases chunks
  {
    if chunks == [] then Handout(waiting, [], false)
    else
      var d := Decode(FormatOf(json), buffer + chunks[0]);
      var now := Dispatch(waiting, idOf, d.frames);
      if now.stopped then now else Then(now, ProcessAll(json, idOf, d.rest, now.waiting, chunks[1..]))
  }

  /** The callbacks that fire, their order, their messages and whether it ends in an exception
      do not depend on how the serial port cuts the stream into reads. `seen` is anything read
      so far. */
  lemma {:induction false} DeliveriesIgnoreReads<C, M>(json: seq<byte> -> Option<M>, idOf: M -> Ident,
                                                       seen: seq<byte>, waiting: map<int, C>, chunks: seq<seq<byte>>)
    ensures var buffer := Decode(FormatOf(json), seen).rest;
            ProcessAll(json, idOf, buffer, waiting, chunks)
            == Dispatch(waiting, idOf, Decode(FormatOf(json), buffer + Flatten(chunks)).frames)
    decreases chunks
  {
    hide Decode, FormatOf;
    var fmt := FormatOf(json);
    var buffer := Decode(fmt, seen).rest;
    if chunks == [] {
      assert buffer + Flatten(chunks) == buffer;
      RestIsSettled(fmt, seen);
    } else {
      var whole, tail := buffer + chunks[0], chunks[1..];
      var d := Decode(fmt, whole);
      SplitLaw(fmt, whole, Flatten(tail));
      assert whole + Flatten(tail) == buffer + Flatten(chunks);
      DeliveriesIgnoreReads(json, idOf, whole, Dispatch(waiting, idOf, d.frames).waiting, tail);
      DispatchConcat(waiting, idOf, d.frames, Decode(fmt, d.rest + Flatten(tail)).frames);
    }
  }
}
