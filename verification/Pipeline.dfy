// From the data queue to what the sink's own WebSocket stack sees: the stream that the aggregator
// sends decodes to exactly the messages it took from the queue, in order, with consecutive numbers.
module Pipeline {
  import opened Bytes
  import opened Frames
  import opened Assembler
  import opened Messages
  import opened Aggregator
  import Streams
  import Utf8
  import Json

  // ---------------------------------------------------------------- the log

  lemma {:induction false} TableGrows(msgs: seq<Msg>, i: nat)
    requires i < |msgs|
    ensures Table(msgs[..i + 1]) == Counted(Table(msgs[..i]), msgs[i])
  {
    assert msgs[..i + 1][..i] == msgs[..i] && msgs[..i + 1][i] == msgs[i];
  }

  // What the log says of its i-th parcel.
  lemma {:induction false} ParcelAt(msgs: seq<Stamped>, log: seq<Parcel>, src: seq<Source>, i: nat)
    requires Recorded(msgs, log, src) && i < |log|
    ensures Packed(log[i]) && Stamped(log[i].out.msg, log[i].out.at) == msgs[i]
    ensures log[i].before == if i == 0 then [] else log[i - 1].after
  {
    assert At(log, i);
    assert Follows(msgs, log, i);
  }

  lemma {:induction false} ParcelNumber(msgs: seq<Stamped>, log: seq<Parcel>, src: seq<Source>, i: nat)
    requires Recorded(msgs, log, src) && i < |log|
    ensures log[i].out.msg == msgs[i].msg && log[i].out.seqNo == SeqNo(log[i].before, msgs[i].msg)
  {
    ParcelAt(msgs, log, src, i);
  }

  // Every parcel was made with the table of the messages before it.
  lemma {:induction false} ParcelsUseTable(msgs: seq<Stamped>, log: seq<Parcel>, src: seq<Source>, i: nat)
    requires Recorded(msgs, log, src) && i < |log|
    ensures log[i].before == Table(Unstamped(msgs)[..i]) && log[i].after == Table(Unstamped(msgs)[..i + 1])
  {
    if i == 0 {
      assert Unstamped(msgs)[..0] == [];
    } else {
      ParcelsUseTable(msgs, log, src, i - 1);
    }
    ParcelAt(msgs, log, src, i);
    TableGrows(Unstamped(msgs), i);
  }

  // The number that a message after this history is to be printed with: one more than the number of
  // earlier messages from its source, or 0 when the source came to a full table of sources.
  ghost function NumberAfter(history: seq<Msg>, id: nat): nat {
    if |Table(history)| < 256 || Find(Table(history), id) < |Table(history)|
    then (Tally(history, id) + 1) % TWO64 else 0
  }

  lemma {:induction false} NumberFrom(p: Parcel, history: seq<Msg>, m: Msg)
    requires p.out.seqNo == SeqNo(p.before, m) && p.before == Table(history)
    ensures p.out.seqNo == NumberAfter(history, m.srcId)
  {
    NumbersCountUp(history, m);
  }

  // Every output carries its message, the message's time, and that number.
  lemma {:induction false} ParcelsAreNumbered(msgs: seq<Stamped>, log: seq<Parcel>, src: seq<Source>, i: nat)
    requires Recorded(msgs, log, src) && i < |log|
    ensures Stamped(log[i].out.msg, log[i].out.at) == msgs[i]
    ensures log[i].out.seqNo == NumberAfter(Unstamped(msgs)[..i], msgs[i].msg.srcId)
  {
    ParcelAt(msgs, log, src, i);
    ParcelNumber(msgs, log, src, i);
    ParcelsUseTable(msgs, log, src, i);
    NumberFrom(log[i], Unstamped(msgs)[..i], msgs[i].msg);
  }

  // ---------------------------------------------------------------- what the sink reads

  // A receiver that accepts messages as large as this one; its text is UTF-8, as everything that the
  // assemblers publish as TEXT is.
  ghost predicate Receivable(cfg: Config, p: Parcel) {
    && |OutFrame(p.out).payload| <= cfg.maxFrame && |OutFrame(p.out).payload| <= cfg.maxMessage
    && (p.out.msg.opcode != BIN ==> Utf8.Accepts(p.out.msg.payload))
  }

  ghost predicate AllReceivable(cfg: Config, log: seq<Parcel>) {
    forall i :: 0 <= i < |log| ==> Receivable(cfg, log[i])
  }

  ghost predicate AllPacked(log: seq<Parcel>) {
    forall i :: 0 <= i < |log| ==> Packed(log[i])
  }

  function Delivered(log: seq<Parcel>): (es: seq<Event>)
    ensures |es| == |log|
  {
    seq(|log|, i requires 0 <= i < |log| => Publish(OutFrame(log[i].out).opcode, OutFrame(log[i].out).payload))
  }

  lemma {:induction false} OneReceived(cfg: Config, st: State, p: Parcel)
    requires !st.closing && !st.fragmenting && Packed(p) && Receivable(cfg, p)
    ensures var r := Decode(Client, cfg, st, p.bytes);
            !r.st.closing && !r.st.fragmenting && r.rest == []
            && r.events == [Publish(OutFrame(p.out).opcode, OutFrame(p.out).payload)]
  {
    var f := OutFrame(p.out);
    if f.opcode == TEXT {
      Json.PrintedIsUtf8(AsText(p.out));
      Utf8.AcceptsIffWellFormed(f.payload);
    }
    assert [] + f.payload == f.payload && [] + f.payload + [] == f.payload;
    Streams.GoodFragment(Client, cfg, st, f, []);
    Streams.StepOnWire(Client, cfg, st, Streams.Sent(f, []), []);
    var o := OnFrame(Client, cfg, st, f);
    assert p.bytes + [] == p.bytes && p.bytes[|p.bytes|..] == [];
    assert Step(Client, cfg, st, p.bytes) == Go(o.st, |p.bytes|, o.events);
    assert Step(Client, cfg, o.st, []) == Wait;
    assert o.events + [] == o.events;
  }

  // One more frame behind a stream that decodes to es without a rest.
  lemma {:induction false} OneMoreReceived(cfg: Config, st: State, a: seq<byte>, es: seq<Event>, p: Parcel)
    requires Packed(p) && Receivable(cfg, p)
    requires var r := Decode(Client, cfg, st, a); !r.st.closing && !r.st.fragmenting && r.rest == [] && r.events == es
    ensures var r := Decode(Client, cfg, st, a + p.bytes);
            !r.st.closing && !r.st.fragmenting && r.rest == []
            && r.events == es + [Publish(OutFrame(p.out).opcode, OutFrame(p.out).payload)]
  {
    DecodeConcat(Client, cfg, st, a, p.bytes);
    assert [] + p.bytes == p.bytes;
    OneReceived(cfg, Decode(Client, cfg, st, a).st, p);
  }

  // A client that decodes the stream publishes one message for each message sent, in order, and has
  // no byte left over: no frame was torn, dropped or doubled by the partial sends.
  lemma {:induction false} SinkReadsAll(cfg: Config, st: State, log: seq<Parcel>)
    requires !st.closing && !st.fragmenting && AllPacked(log) && AllReceivable(cfg, log)
    ensures var r := Decode(Client, cfg, st, Stream(log));
            !r.st.closing && !r.st.fragmenting && r.rest == [] && r.events == Delivered(log)
  {
    if log == [] {
      assert Step(Client, cfg, st, []) == Wait;
    } else {
      var k := |log| - 1;
      assert log == log[..k] + [log[k]];
      SinkReadsAll(cfg, st, log[..k]);
      DeliveredAdd(log[..k], log[k]);
      StreamAdd(log[..k], log[k]);
      OneMoreReceived(cfg, st, Stream(log[..k]), Delivered(log[..k]), log[k]);
    }
  }

  lemma {:induction false} DeliveredAdd(log: seq<Parcel>, p: Parcel)
    ensures Delivered(log + [p]) == Delivered(log) + [Publish(OutFrame(p.out).opcode, OutFrame(p.out).payload)]
  {
  }

  // And from each delivered message the original is recovered: a binary one as it is, a text one by
  // reading the JSON object, whose fields name its source, number and time.
  lemma {:induction false} DeliveredIsSent(log: seq<Parcel>, i: nat)
    requires i < |log|
    ensures var e, m := Delivered(log)[i], log[i].out.msg;
            if m.opcode == BIN then e == Publish(BIN, m.payload)
            else e.opcode == TEXT && Json.Read(e.payload)
                 == Some(Json.Text(m.srcId, log[i].out.seqNo, log[i].out.at.sec, log[i].out.at.usec, m.payload))
  {
    Json.ReadPrinted(AsText(log[i].out));
  }

  // The aggregator at rest: everything it took from the queue since it adopted the sink has reached
  // the sink's socket, and the sink, which starts behind its handshake, reads it back.
  lemma {:induction false} SinkHasEverything(a: Agg, cfg: Config)
    requires a.Valid() && a.sink != null && a.InStep() && a.pending == None
    requires AllReceivable(cfg, a.log[a.first..])
    ensures a.base <= a.sink.sent
    ensures var r := Decode(Client, cfg, OPEN, a.sink.sent[|a.base|..]);
            r.rest == [] && r.events == Delivered(a.log[a.first..])
  {
    var log := a.log[a.first..];
    forall i | 0 <= i < |log| ensures Packed(log[i]) {
      ParcelAt(a.msgs, a.log, a.src, a.first + i);
    }
    assert a.sink.sent + [] == a.sink.sent && a.sink.sent[|a.base|..] == Stream(log);
    SinkReadsAll(cfg, OPEN, log);
  }

  // ---------------------------------------------------------------- an answer to a PING in between

  // The control slot goes first: a PING that is answered while a data frame is partly out puts the
  // PONG between the two parts of the frame.
  method AnswerAndFlush(a: Agg, payload: seq<byte>, ghost before: seq<byte>) returns (rc: int)
    requires a.Valid() && a.sink != null && a.pendingCtrl == None && a.pending.Some? && |payload| <= 125
    requires a.sink.sent == before + a.pending.value[..a.pendingOff]
    modifies a, a.sink
    ensures a.sink == old(a.sink) && rc in {1, 0, -1}
    ensures rc == 1 ==>
              a.sink.sent == before
                + Torn(old(a.pending).value, Wire(Frame(true, PONG, payload), []), old(a.pendingOff))
  {
    ghost var data, off, pong := a.pending.value, a.pendingOff, Wire(Frame(true, PONG, payload), []);
    a.AnswerPing(payload);
    rc := a.SinkFlush();
    if rc == 1 {
      ghost var sent := a.sink.sent;
      assert sent == sent + [] + [];
      Assoc(before, data[..off], pong);
      Assoc(before, data[..off] + pong, data[off..]);
    }
  }

  function Torn(data: seq<byte>, pong: seq<byte>, off: nat): seq<byte>
    requires off <= |data|
  {
    data[..off] + pong + data[off..]
  }

  // An unmasked frame stands at the front of a stream exactly when its bytes do.
  lemma {:induction false} BytesMakeFront(cfg: Config, f: Frame, stream: seq<byte>)
    requires f.Legal() && |f.payload| <= cfg.maxFrame && Wire(f, []) <= stream
    ensures AtFront(Client, cfg, stream) == Whole(f, |Wire(f, [])|)
  {
    assert stream == Wire(f, []) + stream[|Wire(f, [])|..];
    Streams.FrontOnWire(Client, cfg, Streams.Sent(f, []), stream[|Wire(f, [])|..]);
  }

  lemma {:induction false} FrontMakesBytes(cfg: Config, f: Frame, stream: seq<byte>)
    requires f.Legal() && AtFront(Client, cfg, stream) == Whole(f, |Wire(f, [])|)
    ensures Wire(f, []) <= stream
  {
    AcceptedIsCanonical(stream);
    var h := Parse(stream).header;
    var n := |Wire(f, [])|;
    assert h.maskKey == [] && h.headerLen <= n <= |stream|;
    assert stream[..n] == stream[..h.headerLen] + stream[h.headerLen..n];
  }

  // The sink reads these frames, one after the other, off the front of the stream.
  ghost predicate Reads(cfg: Config, stream: seq<byte>, fs: seq<Frame>) {
    fs == [] ||
    (fs[0].Legal() &&
     var n := |Wire(fs[0], [])|;
     n <= |stream| && AtFront(Client, cfg, stream) == Whole(fs[0], n) && Reads(cfg, stream[n..], fs[1..]))
  }

  ghost function WireOf(fs: seq<Frame>): seq<byte>
    requires forall i :: 0 <= i < |fs| ==> fs[i].Legal()
  {
    if fs == [] then [] else Wire(fs[0], []) + WireOf(fs[1..])
  }

  lemma {:induction false} ReadsExactly(cfg: Config, stream: seq<byte>, fs: seq<Frame>)
    requires forall i :: 0 <= i < |fs| ==> fs[i].Legal() && |fs[i].payload| <= cfg.maxFrame
    ensures Reads(cfg, stream, fs) <==> WireOf(fs) <= stream
    decreases |fs|
  {
    if fs != [] {
      var w := Wire(fs[0], []);
      if w <= stream {
        BytesMakeFront(cfg, fs[0], stream);
        ReadsExactly(cfg, stream[|w|..], fs[1..]);
        PrefixSplit(w, WireOf(fs[1..]), stream);
      } else if AtFront(Client, cfg, stream) == Whole(fs[0], |w|) {
        FrontMakesBytes(cfg, fs[0], stream);
      }
    }
  }

  lemma PrefixSplit(a: seq<byte>, b: seq<byte>, s: seq<byte>)
    requires a <= s
    ensures a + b <= s <==> b <= s[|a|..]
  {
    assert s == a + s[|a|..];
    if a + b <= s {
      assert s[|a|..][..|b|] == s[|a|..|a| + |b|] == (a + b)[|a|..];
    }
  }

  lemma WireOfFew(f: Frame, g: Frame)
    requires f.Legal() && g.Legal()
    ensures WireOf([f]) == Wire(f, []) && WireOf([f, g]) == Wire(f, []) + Wire(g, [])
  {
    assert [f][1..] == [] && [f, g][1..] == [g] && [g][1..] == [];
  }

  // What the sink then reads, for every data frame f, PONG g, and part of f that was out. A frame not
  // begun comes whole behind the PONG. Otherwise the sink reads f exactly when the PONG begins, and what
  // it displaces goes on, like the rest of f; and then the PONG too exactly when the two are the same
  // in either order.
  lemma {:induction false} TornExactly(cfg: Config, f: Frame, g: Frame, off: nat)
    requires f.Legal() && !IsControl(f.opcode) && |f.payload| <= cfg.maxFrame
    requires g.Legal() && g.opcode == PONG && |g.payload| <= cfg.maxFrame && off <= |Wire(f, [])|
    ensures var data, pong := Wire(f, []), Wire(g, []);
            var stream, rest := Torn(data, pong, off), data[off..];
            if off == 0 then Reads(cfg, stream, [g, f])
            else
              && (Reads(cfg, stream, [f]) <==> rest <= pong + rest)
              && (Reads(cfg, stream, [f, g]) <==> pong + rest == rest + pong)
  {
    var data, pong := Wire(f, []), Wire(g, []);
    var stream := Torn(data, pong, off);
    ReadsExactly(cfg, stream, [f]);
    ReadsExactly(cfg, stream, [f, g]);
    ReadsExactly(cfg, stream, [g, f]);
    WireOfFew(f, g);
    WireOfFew(g, f);
    Interposed(data, pong, off);
  }

  lemma {:induction false} Interposed(data: seq<byte>, pong: seq<byte>, off: nat)
    requires off <= |data|
    ensures var stream, rest := Torn(data, pong, off), data[off..];
            && (off == 0 ==> stream == pong + data)
            && (data <= stream <==> rest <= pong + rest)
            && (data + pong <= stream <==> pong + rest == rest + pong)
  {
    var stream, rest := Torn(data, pong, off), data[off..];
    assert data == data[..off] + rest;
    assert stream == data[..off] + (pong + rest);
    assert |stream| == |data + pong|;
    PrefixSplit(data[..off], rest, stream);
    assert stream[off..] == pong + rest;
    assert data + pong == data[..off] + (rest + pong);
    PrefixSplit(data[..off], rest + pong, stream);
  }
}
