// Messages on their way to the aggregator, and the replies a connection sends back.
module Messages {
  import opened Bytes
  import opened Frames
  import opened Assembler

  datatype Msg = Msg(srcId: nat, opcode: nat, payload: seq<byte>)

  datatype RawStamp = Stamp(sec: nat, usec: nat)

  type Stamp = t: RawStamp | t.sec < TWO64 && t.usec < 1000000 witness Stamp(0, 0)

  // The clock, read when a message is complete, shows an arbitrary time.
  method ClockNow() returns (at: Stamp)
  {
    var sec: nat, usec: nat := *, *;
    at := Stamp(sec % TWO64, usec % 1000000);
  }

  // A message as it waits, with the time at which it was complete. Everything but that time follows
  // from the bytes received.
  datatype Stamped = Stamped(msg: Msg, at: Stamp)

  function Unstamped(q: seq<Stamped>): (ms: seq<Msg>)
    ensures |ms| == |q|
  {
    seq(|q|, i requires 0 <= i < |q| => q[i].msg)
  }

  function Plain(p: Option<Stamped>): Option<Msg> {
    match p
    case None => None
    case Some(x) => Some(x.msg)
  }

  lemma UnstampedAdd(q: seq<Stamped>, x: Stamped)
    ensures Unstamped(q + [x]) == Unstamped(q) + [x.msg]
  {
  }

  function AsMsg(id: nat, e: Event): Msg
    requires e.Publish?
  {
    Msg(id, e.opcode, e.payload)
  }

  // The messages and the replies among a run of events.
  function MsgsOf(id: nat, es: seq<Event>): seq<Msg> {
    if es == [] then []
    else (if es[0].Publish? then [AsMsg(id, es[0])] else []) + MsgsOf(id, es[1..])
  }

  function RepliesOf(es: seq<Event>): seq<Event> {
    if es == [] then []
    else (if es[0].Publish? then [] else [es[0]]) + RepliesOf(es[1..])
  }

  // Every event is a message for the queue or a reply to the peer, and neither is lost; with MsgsConcat and
  // RepliesConcat, so it is with a run of them, in order.
  lemma {:induction false} OneEvent(id: nat, e: Event)
    ensures MsgsOf(id, [e]) == match e
                               case Publish(opcode, payload) => [Msg(id, opcode, payload)]
                               case _ => []
    ensures RepliesOf([e]) == match e
                              case Publish(_, _) => []
                              case Pong(payload) => [Pong(payload)]
                              case SentClose(payload) => [SentClose(payload)]
  {
    assert [e][1..] == [];
  }

  lemma {:induction false} MsgsConcat(id: nat, a: seq<Event>, b: seq<Event>)
    ensures MsgsOf(id, a + b) == MsgsOf(id, a) + MsgsOf(id, b)
  {
    if a == [] {
      assert a + b == b;
    } else {
      MsgsConcat(id, a[1..], b);
      var h := if a[0].Publish? then [AsMsg(id, a[0])] else [];
      assert h + (MsgsOf(id, a[1..]) + MsgsOf(id, b)) == h + MsgsOf(id, a[1..]) + MsgsOf(id, b);
      assert (a + b)[0] == a[0] && (a + b)[1..] == a[1..] + b;
    }
  }

  lemma {:induction false} RepliesConcat(a: seq<Event>, b: seq<Event>)
    ensures RepliesOf(a + b) == RepliesOf(a) + RepliesOf(b)
  {
    if a == [] {
      assert a + b == b;
    } else {
      RepliesConcat(a[1..], b);
      var h := if a[0].Publish? then [] else [a[0]];
      assert h + (RepliesOf(a[1..]) + RepliesOf(b)) == h + RepliesOf(a[1..]) + RepliesOf(b);
      assert (a + b)[0] == a[0] && (a + b)[1..] == a[1..] + b;
    }
  }

  // ---------------------------------------------------------------- replies on the wire

  predicate IsReply(e: Event) {
    !e.Publish? && |e.payload| <= 125
  }

  function ReplyFrame(e: Event): (f: Frame)
    requires IsReply(e)
    ensures f.Legal()
  {
    Frame(true, if e.Pong? then PONG else CLOSE, e.payload)
  }

  // A reply as sent: the client masks it with a fresh key, the server's keys are empty.
  datatype RawReply = Reply(event: Event, key: seq<byte>)

  type Reply = r: RawReply | IsReply(r.event) && LegalKey(r.key) witness Reply(Pong([]), [])

  // A control frame has a two-byte header and its masking key.
  function WireReply(r: Reply): seq<byte> {
    [128 + ReplyFrame(r.event).opcode, (if r.key == [] then 0 else 128) + |r.event.payload|]
    + r.key + Mask(r.event.payload, r.key)
  }

  lemma ReplyIsFrame(r: Reply)
    ensures WireReply(r) == Wire(ReplyFrame(r.event), r.key)
  {
    ShortHeader(ReplyFrame(r.event).opcode, r.key, |r.event.payload|);
  }

  // Byte by byte: PONG and CLOSE by their first byte, then the length, the mask bit and the key.
  lemma {:induction false} ReplyBytes(r: Reply)
    ensures WireReply(r)
            == [if r.event.Pong? then 0x8A else 0x88]
               + [if |r.key| == 4 then 128 + |r.event.payload| else |r.event.payload|]
               + r.key + Mask(r.event.payload, r.key)
  {
    var first := 128 + ReplyFrame(r.event).opcode;
    var second := (if r.key == [] then 0 else 128) + |r.event.payload|;
    assert [first, second] == [first] + [second];
  }

  function Wires(rs: seq<Reply>): (ws: seq<seq<byte>>)
    ensures |ws| == |rs|
  {
    seq(|rs|, i requires 0 <= i < |rs| => WireReply(rs[i]))
  }

  function WireReplies(rs: seq<Reply>): seq<byte> {
    Flatten(Wires(rs))
  }

  function Events(rs: seq<Reply>): (es: seq<Event>)
    ensures |es| == |rs|
  {
    seq(|rs|, i requires 0 <= i < |rs| => rs[i].event)
  }

  lemma WireRepliesConcat(a: seq<Reply>, b: seq<Reply>)
    ensures WireReplies(a + b) == WireReplies(a) + WireReplies(b)
  {
    forall i | 0 <= i < |a + b| ensures Wires(a + b)[i] == (Wires(a) + Wires(b))[i] {
      if i < |a| {
        assert (a + b)[i] == a[i];
      } else {
        assert (a + b)[i] == b[i - |a|];
      }
    }
    assert Wires(a + b) == Wires(a) + Wires(b);
    FlattenConcat(Wires(a), Wires(b));
  }

  lemma WireRepliesOne(r: Reply)
    ensures WireReplies([r]) == WireReply(r)
  {
    assert Wires([r])[1..] == [];
    assert Flatten(Wires([r])) == WireReply(r) + [];
  }
}
