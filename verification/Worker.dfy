// One inbound connection under a worker: src/worker.c, handleWsOpen and what it calls. Payloads are
// unmasked in place, inside the receive buffer.
module Worker {
  import opened Bytes
  import opened Frames
  import opened Assembler
  import opened Messages
  import opened Queues
  import opened Sessions
  import opened Sockets
  import opened Turns
  import Utf8

  datatype Disposition = RearmIn | RearmInOut | Close | Parked

  // The park list, which agg.c threads through its connections, holds the sources that wait for room
  // in the data queue, oldest first.
  class Conn {
    const id: nat
    var rx: seq<byte>
    var tx: seq<byte>
    var msg: seq<byte>
    var msgOpcode: nat
    var fragmenting: bool
    var msgUtf8: Utf8.State
    var closeAfterSend: bool
    var pendingMsg: Option<Stamped>

    ghost function Abs(): State
      reads this
    {
      State(fragmenting, msgOpcode, msg, msgUtf8, closeAfterSend)
    }

    ghost function Now(q: Queue<Stamped>): Snap
      reads this, q, q.Repr
      requires q.Valid()
    {
      Snap(Abs(), rx, Unstamped(q.Contents()), tx, Plain(pendingMsg))
    }

    // As it opens after the handshake: what came behind the request is in rx already.
    constructor (id: nat, early: seq<byte>)
      ensures this.id == id && rx == early && tx == [] && Abs() == OPEN && pendingMsg == None
    {
      this.id := id;
      rx, tx, msg := early, [], [];
      msgOpcode, fragmenting, msgUtf8 := 0, false, Utf8.START;
      closeAfterSend, pendingMsg := false, None;
    }

    // A reply frame behind what tx already holds; the server does not mask.
    method Reply(e: Event) returns (ghost rs: seq<Messages.Reply>)
      requires IsReply(e)
      modifies this`tx
      ensures tx == old(tx) + WireReplies(rs) && Events(rs) == RepliesOf([e]) && MsgsOf(id, [e]) == []
    {
      var f := ReplyFrame(e);
      var bytes := NewFrame(f.opcode, f.payload);
      tx := tx + bytes;
      rs := [Messages.Reply(e, [])];
      ReplyIsFrame(rs[0]);
      WireRepliesOne(rs[0]);
    }

    // sendCloseAndMark: once.
    method SendCloseAndMark(code: nat) returns (ghost rs: seq<Messages.Reply>)
      requires code < 65536
      modifies this`tx, this`closeAfterSend
      ensures closeAfterSend && tx == old(tx) + WireReplies(rs)
      ensures Events(rs) == if old(closeAfterSend) then [] else RepliesOf([SentClose(CloseBody(code))])
    {
      rs := [];
      if closeAfterSend {
        assert Wires(rs) == [];
        return;
      }
      rs := Reply(SentClose([code / 256, code % 256]));
      closeAfterSend := true;
    }

    // ---------------------------------------------------------------- one frame

    // What the header and the length of rx decide; a whole frame is unmasked where it lies.
    method NextFrame(cfg: Config) returns (x: Front)
      modifies this`rx
      ensures x == AtFront(Server, cfg, old(rx)) && |rx| == |old(rx)|
      ensures x.Whole? ==> rx[x.n..] == old(rx)[x.n..]
      ensures !x.Whole? ==> rx == old(rx)
    {
      var v := ParseHeader(rx);
      match v {
        case NeedMore => return Partial;
        case Malformed => return Refused(1002);
        case Parsed(h) =>
          if !h.masked {
            return Refused(1002);
          }
          if h.payloadLen > cfg.maxFrame {
            return Refused(1009);
          }
          var frameLen := h.headerLen + h.payloadLen;
          if |rx| < frameLen {
            return Partial;
          }
          AcceptedIsCanonical(rx);
          var payload := Mask(rx[h.headerLen..frameLen], h.maskKey);
          rx := rx[..h.headerLen] + payload + rx[frameLen..];
          x := Whole(Frame(h.fin, h.opcode, payload), frameLen);
      }
    }

    // The close code of a CLOSE frame's answer.
    method CloseCode(p: seq<byte>) returns (code: nat)
      ensures code == ReplyCode(p)
    {
      code := 1000;
      if |p| == 1 {
        return 1002;
      }
      if |p| >= 2 {
        code := (p[0] as int) * 256 + p[1];
        if !ValidCloseCode(code) {
          return 1002;
        }
        var good, st := Utf8.FeedBytes(Utf8.START, p[2..]);
        if !good || st.need != 0 {
          return 1007;
        }
      }
    }

    // The control frame f is the first frameLen bytes of rx.
    method TakeControl(f: Frame, frameLen: nat) returns (answer: Option<Event>)
      requires IsControl(f.opcode) && frameLen <= |rx|
      modifies this`rx
      ensures var o := OnControl(Server, Abs(), f);
              Opt(answer) == o.events && o.consumed && rx == old(rx)[frameLen..]
      ensures answer.Some? && answer.value.SentClose? ==> IsReply(answer.value)
    {
      if f.opcode == PING {
        answer := Some(Pong(f.payload));
      } else if f.opcode == CLOSE {
        var code := CloseCode(f.payload);
        answer := Some(SentClose(CloseBody(code)));
      } else {
        answer := None;
      }
      rx := rx[frameLen..];
    }

    method AdmitData(opcode: nat, n: nat, cfg: Config) returns (code: nat)
      requires !IsControl(opcode) && !closeAfterSend
      modifies this`msgOpcode, this`fragmenting, this`msg, this`msgUtf8
      ensures (Abs(), code) == Admit(cfg, old(Abs()), opcode, n)
    {
      if opcode == CONT {
        if !fragmenting {
          return 1002;
        }
      } else {
        if fragmenting {
          return 1002;
        }
        msgOpcode, fragmenting, msg, msgUtf8 := opcode, true, [], Utf8.START;
      }
      if |msg| + n > cfg.maxMessage {
        return 1009;
      }
      return 0;
    }

    method GatherData(fin: bool, payload: seq<byte>) returns (code: nat, consumed: bool)
      requires !closeAfterSend
      modifies this`fragmenting, this`msg, this`msgUtf8
      ensures Gathered(Abs(), code, consumed) == Gather(old(Abs()), fin, payload)
    {
      if msgOpcode == TEXT && |payload| > 0 {
        var good;
        good, msgUtf8 := Utf8.FeedBytes(msgUtf8, payload);
        if !good {
          return 1007, false;
        }
      }
      msg := msg + payload;
      consumed, code := true, 0;
      if !fin {
        fragmenting := true;
        return;
      }
      fragmenting := false;
      if msgOpcode == TEXT && msgUtf8.need != 0 {
        code := 1007;
      }
    }

    // The data frame f is the first frameLen bytes of rx. `complete` when msg now holds a message.
    method TakeData(f: Frame, frameLen: nat, cfg: Config) returns (answer: Option<Event>, complete: bool)
      requires !IsControl(f.opcode) && !closeAfterSend && frameLen <= |rx|
      modifies this`msgOpcode, this`fragmenting, this`rx, this`msg, this`msgUtf8
      ensures var o := OnData(cfg, old(Abs()), f);
              && rx == (if o.consumed then old(rx)[frameLen..] else old(rx))
              && (if complete then answer == None && o.events == [Publish(msgOpcode, msg)]
                                   && o.consumed && o.st == Abs().(acc := [])
                  else Opt(answer) == o.events && o.st == Abs().(closing := answer.Some?))
      ensures answer.Some? ==> IsReply(answer.value) && answer.value.SentClose?
    {
      var consumed := false;
      var code := AdmitData(f.opcode, |f.payload|, cfg);
      if code == 0 {
        code, consumed := GatherData(f.fin, f.payload);
      }
      if consumed {
        rx := rx[frameLen..];
      }
      answer := if code == 0 then None else Some(SentClose(CloseBody(code)));
      complete := code == 0 && f.fin;
    }

    // One step of the one-pass assembler, up to what it sends or publishes. When the connection goes
    // on, what stays in rx is what was received: nothing unmasked is left to be unmasked again.
    method Consider(cfg: Config) returns (moved: bool, answer: Option<Event>, complete: bool)
      requires !closeAfterSend
      modifies this`msgOpcode, this`fragmenting, this`rx, this`msg, this`msgUtf8
      ensures moved <==> Step(Server, cfg, old(Abs()), old(rx)).Go?
      ensures !moved ==> Abs() == old(Abs()) && rx == old(rx) && !complete && answer == None
      ensures moved ==>
                var m := Step(Server, cfg, old(Abs()), old(rx));
                && |rx| == |old(rx)| - m.used && (!m.st.closing ==> rx == old(rx)[m.used..])
                && (if complete then answer == None && m.events == [Publish(msgOpcode, msg)]
                                     && m.st == Abs().(acc := [])
                    else Opt(answer) == m.events
                         && m.st == Abs().(closing := answer.Some? && answer.value.SentClose?))
      ensures answer.Some? ==> IsReply(answer.value)
    {
      moved, answer, complete := true, None, false;
      WholeIsLegal(Server, cfg, rx);
      var x := NextFrame(cfg);
      match x {
        case Partial =>
          moved := false;
        case Refused(code) =>
          answer := Some(SentClose(CloseBody(code)));
        case Whole(f, frameLen) =>
          if IsControl(f.opcode) {
            answer := TakeControl(f, frameLen);
          } else {
            answer, complete := TakeData(f, frameLen, cfg);
          }
      }
    }

    // A complete message goes into the data queue or, when that is full, stays with the connection,
    // which is parked.
    method PublishMessage(q: Queue<Stamped>, high: nat, park: Fifo<Conn>) returns (parked: bool)
      requires q.Valid() && this !in q.Repr && park !in q.Repr && pendingMsg == None
      modifies this`pendingMsg, this`msg, park, q.Repr
      ensures q.Valid() && fresh(q.Repr - old(q.Repr)) && msg == []
      ensures Carried(id, [Publish(msgOpcode, old(msg))], old(Unstamped(q.Contents())), Unstamped(q.Contents()),
                      Plain(pendingMsg), [], high)
      ensures old(q.Contents()) <= q.Contents()
      ensures parked <==> pendingMsg.Some?
      ensures park.items == old(park.items) + (if parked then [this] else [])
    {
      var at := ClockNow();
      var m := Stamped(Msg(id, msgOpcode, msg), at);
      UnstampedAdd(q.Contents(), m);
      msg := [];
      if q.size >= high {
        pendingMsg := Some(m);
        park.Push(this);
        return true;
      }
      q.Push(m);
      return false;
    }

    // What a step sends or publishes.
    method CarryOut(answer: Option<Event>, complete: bool, q: Queue<Stamped>, high: nat, park: Fifo<Conn>)
      returns (parked: bool, ghost rs: seq<Messages.Reply>)
      requires q.Valid() && this !in q.Repr && park !in q.Repr && pendingMsg == None && !closeAfterSend
      requires (complete ==> answer == None) && (answer.Some? ==> IsReply(answer.value))
      modifies this`pendingMsg, this`msg, this`tx, this`closeAfterSend, park, q.Repr
      ensures q.Valid() && fresh(q.Repr - old(q.Repr))
      ensures parked <==> pendingMsg.Some?
      ensures park.items == old(park.items) + (if parked then [this] else [])
      ensures tx == old(tx) + WireReplies(rs)
      ensures Carried(id, if complete then [Publish(msgOpcode, old(msg))] else Opt(answer),
                      old(Unstamped(q.Contents())), Unstamped(q.Contents()), Plain(pendingMsg), rs, high)
      ensures old(q.Contents()) <= q.Contents()
      ensures msg == if complete then [] else old(msg)
      ensures closeAfterSend <==> answer.Some? && answer.value.SentClose?
      ensures !complete && answer == None ==> pendingMsg == None && rs == []
    {
      rs, parked := [], false;
      assert Wires(rs) == [] && tx + [] == tx && Events(rs) == [];
      if complete {
        parked := PublishMessage(q, high, park);
      } else if answer.Some? {
        rs := Reply(answer.value);
        closeAfterSend := answer.value.SentClose?;
      }
    }

    // One turn of the loop of handleWsOpen.
    method TakeFrame(cfg: Config, q: Queue<Stamped>, high: nat, park: Fifo<Conn>)
      returns (moved: bool, parked: bool, ghost rs: seq<Messages.Reply>)
      requires !closeAfterSend && q.Valid() && this !in q.Repr && park !in q.Repr && pendingMsg == None
      modifies this, q.Repr, park
      ensures q.Valid() && fresh(q.Repr - old(q.Repr))
      ensures parked <==> pendingMsg.Some?
      ensures park.items == old(park.items) + (if parked then [this] else [])
      ensures moved <==> Step(Server, cfg, old(Abs()), old(rx)).Go?
      ensures !moved ==> Abs() == old(Abs()) && rx == old(rx) && tx == old(tx)
      ensures !moved ==> q.Contents() == old(q.Contents()) && pendingMsg == None && rs == []
      ensures moved ==>
                var m := Step(Server, cfg, old(Abs()), old(rx));
                && Abs() == m.st
                && |rx| == |old(rx)| - m.used && (!m.st.closing ==> rx == old(rx)[m.used..])
                && tx == old(tx) + WireReplies(rs)
                && Carried(id, m.events, old(Unstamped(q.Contents())), Unstamped(q.Contents()),
                           Plain(pendingMsg), rs, high)
      ensures old(q.Contents()) <= q.Contents()
    {
      var answer, complete;
      moved, answer, complete := Consider(cfg);
      parked, rs := CarryOut(answer, complete, q, high, park);
    }

    // One turn of the loop, and where the pass that began at `start` stands after it. `rest` is the
    // unread raw input; rx is exactly that as long as the connection is not closing.
    method Turn(cfg: Config, q: Queue<Stamped>, high: nat, park: Fifo<Conn>,
                ghost start: Snap, ghost es: seq<Event>, ghost rs: seq<Messages.Reply>)
      returns (going: bool, parked: bool, ghost rest: seq<byte>, ghost es': seq<Event>, ghost rs': seq<Messages.Reply>)
      requires !closeAfterSend && q.Valid() && this !in q.Repr && park !in q.Repr && pendingMsg == None
      requires Through(Server, cfg, id, high, start, Now(q), es, rs)
      modifies this, q.Repr, park
      ensures q.Valid() && fresh(q.Repr - old(q.Repr)) && old(q.Contents()) <= q.Contents()
      ensures if going then
                !closeAfterSend && !parked && |rx| < |old(rx)|
                  && Through(Server, cfg, id, high, start, Now(q), es', rs')
              else Finished(Server, cfg, id, high, start, Now(q).(rx := rest), rs')
      ensures |rest| == |rx| && (!closeAfterSend ==> rest == rx)
      ensures (parked <==> pendingMsg.Some?) && (parked ==> !closeAfterSend)
      ensures park.items == old(park.items) + (if parked then [this] else [])
    {
      ghost var b := Now(q);
      var moved;
      ghost var more;
      moved, parked, more := TakeFrame(cfg, q, high, park);
      rest, es', rs' := rx, es, rs;
      if moved {
        rest := b.rx[Step(Server, cfg, b.st, b.rx).used..];
        TurnGoes(Server, cfg, id, high, start, b, Now(q).(rx := rest), es, rs, more);
        StepPublishes(Server, cfg, b.st, b.rx);
        es', rs' := es + Step(Server, cfg, b.st, b.rx).events, rs + more;
      } else {
        TurnWaits(Server, cfg, id, high, start, b, es, rs);
      }
      going := moved && !parked && !closeAfterSend;
    }

    // The parse loop: until no whole frame is left, the connection closes, or it is parked.
    method ParseFrames(cfg: Config, q: Queue<Stamped>, high: nat, park: Fifo<Conn>)
      returns (parked: bool, ghost rest: seq<byte>, ghost rs: seq<Messages.Reply>)
      requires !closeAfterSend && q.Valid() && this !in q.Repr && park !in q.Repr && pendingMsg == None
      modifies this, q.Repr, park
      ensures q.Valid() && fresh(q.Repr - old(q.Repr)) && old(q.Contents()) <= q.Contents()
      ensures Finished(Server, cfg, id, high, old(Now(q)), Now(q).(rx := rest), rs)
      ensures |rest| == |rx| && (!closeAfterSend ==> rest == rx)
      ensures (parked <==> pendingMsg.Some?) && (parked ==> !closeAfterSend)
      ensures park.items == old(park.items) + (if parked then [this] else [])
    {
      rs, rest, parked := [], rx, false;
      ghost var es: seq<Event> := [];
      ghost var start := Now(q);
      ThroughStart(Server, cfg, id, high, start);
      var going := true;
      while going
        invariant q.Valid() && fresh(q.Repr - old(q.Repr)) && this !in q.Repr && park !in q.Repr
        invariant old(q.Contents()) <= q.Contents()
        invariant |rest| == |rx| && (!closeAfterSend ==> rest == rx)
        invariant if going then !closeAfterSend && !parked && Through(Server, cfg, id, high, start, Now(q), es, rs)
                  else Finished(Server, cfg, id, high, start, Now(q).(rx := rest), rs)
        invariant (parked <==> pendingMsg.Some?) && (parked ==> !closeAfterSend)
        invariant park.items == old(park.items) + (if parked then [this] else [])
        decreases going, |rx|
      {
        going, parked, rest, es, rs := Turn(cfg, q, high, park, start, es, rs);
      }
    }

    // flushTx: bytes leave in order, as many as the socket takes. Read again when all is sent, or closed
    // if we are closing; when something is left, wait until the socket takes more, or close if it broke.
    method FlushTx(s: OutSocket) returns (disp: Disposition)
      requires s as object != this
      modifies this`tx, s
      ensures s.sent + tx == old(s.sent + tx)
      ensures var run := SendAll(old(s.script), |old(tx)|); |tx| == run.left && s.script == run.script
      ensures tx == [] <==> |old(tx)| <= Offer(old(s.script))
      ensures disp != Parked
      ensures disp == RearmIn <==> tx == [] && !closeAfterSend
      ensures disp == RearmInOut <==> tx != [] && Obstacle(old(s.script)).Stuck?
      ensures disp == Close <==> if tx == [] then closeAfterSend else Obstacle(old(s.script)).Dead?
    {
      SendAllMeans(s.script, |tx|);
      while |tx| > 0
        invariant s.sent + tx == old(s.sent + tx)
        invariant SendAll(s.script, |tx|) == SendAll(old(s.script), |old(tx)|)
        decreases |tx|
      {
        ghost var sent0, tx0 := s.sent, tx;
        var r := s.Send(tx);
        match r {
          case Took(n) =>
            tx := tx[n..];
            assert sent0 + tx0 == sent0 + tx0[..n] + tx0[n..];
          case Blocked => return RearmInOut;
          case Broken => return Close;
        }
      }
      disp := if closeAfterSend then Close else RearmIn;
    }

    // The part of handleWsOpen that reads: rc and chunk are what bufRecv returned and appended.
    method TakeIn(rc: int, chunk: seq<byte>, cfg: Config, q: Queue<Stamped>, high: nat, park: Fifo<Conn>)
      returns (parked: bool, ghost rest: seq<byte>, ghost rs: seq<Messages.Reply>)
      requires q.Valid() && this !in q.Repr && park !in q.Repr && pendingMsg == None
      modifies this, q.Repr, park
      ensures q.Valid() && fresh(q.Repr - old(q.Repr)) && old(q.Contents()) <= q.Contents()
      ensures tx == old(tx) + WireReplies(rs)
      ensures Handled(cfg, id, high, rc, chunk, old(Now(q)), Now(q).(rx := rest), rs)
      ensures |rest| == |rx| && (!closeAfterSend ==> rest == rx)
      ensures parked <==> pendingMsg.Some?
      ensures park.items == old(park.items) + (if parked then [this] else [])
    {
      parked, rs, rest := false, [], rx + chunk;
      rx := rx + chunk;
      ghost var tx0 := tx;
      assert Wires(rs) == [] && tx0 + WireReplies(rs) == tx0;
      if rc == -2 {
        rs := SendCloseAndMark(1009);
      }
      if !closeAfterSend {
        ghost var a := Now(q);
        parked, rest, rs := ParseFrames(cfg, q, high, park);
        FinishedTx(cfg, id, high, a, Now(q).(rx := rest), rs);
      }
    }

    // The part that writes. When the peer has closed already, what the socket takes now is all that it
    // gets.
    method Depart(rc: int, s: OutSocket, ghost n: nat) returns (disp: Disposition)
      requires s as object != this && n == |tx|
      modifies this`tx, s
      ensures s.sent + tx == old(s.sent + tx)
      ensures var run := SendAll(old(s.script), n); |tx| == run.left && s.script == run.script
      ensures tx == [] <==> n <= Offer(old(s.script))
      ensures disp != Parked
      ensures disp == RearmIn <==> rc !in {-1, 2} && tx == [] && !closeAfterSend
      ensures disp == RearmInOut <==> rc !in {-1, 2} && tx != [] && Obstacle(old(s.script)).Stuck?
      ensures disp == Close <==>
                rc in {-1, 2} || if tx == [] then closeAfterSend else Obstacle(old(s.script)).Dead?
    {
      disp := FlushTx(s);
      if (rc == -1 || rc == 2) && disp != Close {
        disp := Close;
      }
    }

    // handleWsOpen on a readable event.
    method HandleWsOpen(rc: int, chunk: seq<byte>, cfg: Config, q: Queue<Stamped>, high: nat, park: Fifo<Conn>,
                        s: OutSocket)
      returns (disp: Disposition, ghost rest: seq<byte>, ghost rs: seq<Messages.Reply>)
      requires q.Valid() && this !in q.Repr && park !in q.Repr && s !in q.Repr && pendingMsg == None
      requires s as object != this && s as object != park
      requires rc in {-2, -1, 0, 1, 2}
      modifies this, q.Repr, park, s
      ensures q.Valid() && fresh(q.Repr - old(q.Repr)) && old(q.Contents()) <= q.Contents()
      // What is read, published and answered,
      ensures Handled(cfg, id, high, rc, chunk, old(Now(q)), Now(q).(rx := rest), rs)
      ensures |rest| == |rx| && (!closeAfterSend ==> rest == rx)
      // parking only when the queue is full, without ever overfilling it, and leaving nothing behind
      // that could still be done;
      ensures |old(q.Contents())| <= high ==> |q.Contents()| <= high
      ensures disp == Parked ==> |q.Contents()| >= high
      ensures disp != Parked && !closeAfterSend ==> Step(Server, cfg, Abs(), rx) == Wait
      // at the receive cap only a CLOSE with 1009 is sent;
      ensures rc == -2 && !old(closeAfterSend) ==> closeAfterSend && Events(rs) == [SentClose([3, 241])]
      // which as a part of the connection's session is one act.
      ensures Enacted(Server, cfg, id, high, old(Now(q)).(tx := []), Now(q).(rx := rest, tx := WireReplies(rs)),
                      [Readable(rc, chunk, Room(|old(q.Contents())|, high))], rs)
      // Every byte to send is sent or still queued, in order.
      ensures s.sent + tx == old(s.sent + tx) + WireReplies(rs)
      // A parked connection sends nothing now. Otherwise as much is sent as the socket takes, and what
      // is done with the connection depends on that alone and on whether it is closing, or closed.
      ensures disp == Parked <==> pendingMsg.Some?
      ensures park.items == old(park.items) + (if disp == Parked then [this] else [])
      ensures disp == Parked ==> s.sent == old(s.sent) && s.script == old(s.script)
      ensures disp != Parked ==>
                var run := SendAll(old(s.script), |old(tx)| + |WireReplies(rs)|);
                && |tx| == run.left && s.script == run.script
                && (tx == [] <==> |old(tx)| + |WireReplies(rs)| <= Offer(old(s.script)))
      // It is read again when nothing is left to send; waits for the socket when something is; and is
      // closed when the peer has closed, when the socket broke, and when the last byte of a CLOSE is sent.
      ensures disp == RearmIn ==> rc !in {-1, 2} && tx == [] && !closeAfterSend
      ensures disp == RearmInOut ==> rc !in {-1, 2} && tx != [] && Obstacle(old(s.script)).Stuck?
      ensures disp == Close ==>
                rc in {-1, 2} || if tx == [] then closeAfterSend else Obstacle(old(s.script)).Dead?
    {
      var parked;
      ghost var sent0, tx0, a := s.sent, tx, Now(q);
      parked, rest, rs := TakeIn(rc, chunk, cfg, q, high, park);
      ghost var b := Now(q).(rx := rest);
      disp := Parked;
      if !parked {
        disp := Depart(rc, s, |tx0| + |WireReplies(rs)|);
      }
      Assoc(sent0, tx0, WireReplies(rs));
      assert Now(q).(rx := rest, tx := b.tx) == b;
      HandledIsEnacted(cfg, id, high, rc, chunk, a, b, rs);
      HandledQueue(cfg, id, high, rc, chunk, a, b, rs);
    }
  }

  // A readable event, by what bufRecv makes of it.
  function Readable(rc: int, chunk: seq<byte>, room: nat): Act {
    if rc == -2 then Overflow(chunk) else Receive(chunk, room)
  }

  // From a to b, a readable event was handled, with these replies.
  ghost predicate Handled(cfg: Config, id: nat, high: nat, rc: int, chunk: seq<byte>, a: Snap, b: Snap,
                          rs: seq<Messages.Reply>) {
    // A closing connection parses nothing more and answers nothing more.
    if a.st.closing then rs == [] && b.st == a.st && b.queue == a.queue && b.pending == None
    // The receive cap closes with 1009.
    else if rc == -2 then
      && b.st == a.st.(closing := true) && Events(rs) == [SentClose(CloseBody(1009))]
      && b.queue == a.queue && b.pending == None
    // Otherwise this is a pass of the assembler over the unread bytes and the new ones.
    else Finished(Server, cfg, id, high, a.(rx := a.rx + chunk, tx := []), b.(tx := WireReplies(rs)), rs)
  }

  lemma HandledIsEnacted(cfg: Config, id: nat, high: nat, rc: int, chunk: seq<byte>, a: Snap, b: Snap,
                         rs: seq<Messages.Reply>)
    requires a.pending == None && Handled(cfg, id, high, rc, chunk, a, b, rs)
    ensures Enacted(Server, cfg, id, high, a.(tx := []), b.(tx := WireReplies(rs)),
                    [Readable(rc, chunk, Room(|a.queue|, high))], rs)
  {
    var a', b' := a.(tx := []), b.(tx := WireReplies(rs));
    assert [] + WireReplies(rs) == WireReplies(rs);
    if a.st.closing {
      assert Wires([]) == [] && WireReplies([]) == [];
      ClosingIgnores(Server, cfg, id, high, a', Readable(rc, chunk, Room(|a.queue|, high)), b');
    } else if rc == -2 {
      CapIsOverflow(Server, cfg, id, high, a', chunk, b', rs);
    } else {
      PassIsReceive(Server, cfg, id, high, a', chunk, b', rs);
    }
  }

  lemma HandledQueue(cfg: Config, id: nat, high: nat, rc: int, chunk: seq<byte>, a: Snap, b: Snap,
                     rs: seq<Messages.Reply>)
    requires a.pending == None && Handled(cfg, id, high, rc, chunk, a, b, rs)
    ensures |a.queue| <= high ==> |b.queue| <= high
    ensures b.pending.Some? ==> |b.queue| >= high
    ensures b.pending == None && !b.st.closing ==> Step(Server, cfg, b.st, b.rx) == Wait
    ensures rc == -2 && !a.st.closing ==> b.st.closing && Events(rs) == [SentClose([3, 241])]
  {
    if !a.st.closing && rc != -2 {
      FinishedQueue(Server, cfg, id, high, a.(rx := a.rx + chunk, tx := []), b.(tx := WireReplies(rs)), rs);
    }
  }

  // What was queued before does not matter to a pass.
  lemma FinishedTx(cfg: Config, id: nat, high: nat, a: Snap, b: Snap, rs: seq<Messages.Reply>)
    requires Finished(Server, cfg, id, high, a, b, rs)
    ensures Finished(Server, cfg, id, high, a.(tx := []), b.(tx := WireReplies(rs)), rs)
  {
  }
}
