// The upstream clients of the reactor: src/ws_client.c, processBufferedFrames and what it calls.
// A Buf_t field is its unread bytes here; Buffers proves that Buf_t operations are exactly the
// sequence operations used below.
module Reactor {
  import opened Bytes
  import opened Frames
  import opened Assembler
  import opened Messages
  import opened Queues
  import opened Sessions
  import opened Sockets
  import opened Turns
  import Utf8

  datatype ConnState = Disconnected | Connecting | Handshake | Open | Closing

  method RandomKey() returns (key: seq<byte>)
    ensures |key| == 4
  {
    var a: byte, b: byte, c: byte, d: byte := *, *, *, *;
    key := [a, b, c, d];
  }

  lemma {:induction false} Pow2Grows(a: nat, b: nat)
    requires a <= b
    ensures Pow2(a) <= Pow2(b)
  {
    if a < b {
      Pow2Grows(a, b - 1);
    }
  }

  // reconnectDelayMs: a second, doubled with every failed attempt, half a minute at most.
  function Delay(attempt: nat): nat {
    if 1000 * Pow2(attempt) > 30000 then 30000 else 1000 * Pow2(attempt)
  }

  lemma {:induction false} DelayDoubles(attempt: nat)
    ensures Delay(0) == 1000
    ensures Delay(attempt + 1) == if Delay(attempt) >= 15000 then 30000 else 2 * Delay(attempt)
  {
    assert Pow2(attempt + 1) == 2 * Pow2(attempt);
  }

  method ReconnectDelay(attempt: nat) returns (delay: nat)
    ensures delay == Delay(attempt)
  {
    delay := 1000;
    var left := attempt;
    while left > 0 && delay < 30000
      invariant 0 <= left <= attempt && delay == 1000 * Pow2(attempt - left)
    {
      delay, left := delay * 2, left - 1;
    }
    Pow2Grows(attempt - left, attempt);
    if delay > 30000 {
      delay := 30000;
    }
  }

  class UpstreamClient {
    const id: nat
    var rx: seq<byte>
    var tx: seq<byte>
    var msg: seq<byte>
    var msgOpcode: nat
    var fragmenting: bool
    var msgUtf8: Utf8.State
    var state: ConnState
    var connected: bool           // fd >= 0
    var readPaused: bool
    var pendingMsg: Option<Stamped>
    var wantIn: bool              // the epoll interest
    var wantOut: bool
    var reconnectAttempt: nat
    var reconnectAtMs: nat        // when to connect again

    ghost predicate Valid()
      reads this
    {
      && (readPaused <==> pendingMsg.Some?)
      && (readPaused ==> connected && state == Open && pendingMsg.value.msg.srcId == id)
      && (connected <==> state != Disconnected)
      && (fragmenting ==> state == Open || state == Closing)
      && (connected ==> Listens())
    }

    // The epoll interest: reading only while unpaused in handshake or open, writing while connecting or
    // while bytes are queued.
    predicate Listens()
      reads this
    {
      && wantIn == (!readPaused && (state == Handshake || state == Open))
      && wantOut == (state == Connecting || tx != [])
    }

    // Able to take a frame: the reactor only parses for such a client.
    ghost predicate Reading()
      reads this
    {
      Valid() && state == Open && !readPaused
    }

    // The state of the one-pass assembler that this client stands for.
    ghost function Abs(): State
      reads this
    {
      State(fragmenting, msgOpcode, msg, msgUtf8, state == Closing)
    }

    constructor (id: nat)
      ensures Valid() && this.id == id && state == Disconnected && rx == tx == [] && Abs() == OPEN
    {
      this.id := id;
      rx, tx, msg := [], [], [];
      msgOpcode, fragmenting, msgUtf8 := 0, false, Utf8.START;
      state, connected, reconnectAttempt, reconnectAtMs := Disconnected, false, 0, 0;
      readPaused, pendingMsg, wantIn, wantOut := false, None, false, false;
    }

    // updateEvents
    method UpdateEvents() returns (ok: bool)
      modifies this`wantIn, this`wantOut
      ensures ok == connected
      ensures ok ==> Listens()
      ensures ok ==> (wantIn <==> !readPaused && state in {Handshake, Open})
      ensures ok ==> (wantOut <==> state == Connecting || tx != [])
      ensures !ok ==> wantIn == old(wantIn) && wantOut == old(wantOut)
    {
      if !connected {
        return false;
      }
      wantIn := !readPaused && (state == Handshake || state == Open);
      wantOut := state == Connecting || |tx| > 0;
      ok := true;
    }

    // The end of processHandshakeResponse: the header is taken off rx, and what came behind it stays.
    method Upgrade(headerLen: nat) returns (ok: bool)
      requires Valid() && state == Handshake && headerLen <= |rx|
      modifies this`rx, this`state, this`reconnectAttempt, this`wantIn, this`wantOut
      ensures ok && Reading() && rx == old(rx)[headerLen..] && reconnectAttempt == 0
      ensures forall queue :: JustOpened(Snap(Abs(), rx, queue, tx, Plain(pendingMsg)))
    {
      rx := rx[headerLen..];
      state := Open;
      reconnectAttempt := 0;
      ok := UpdateEvents();
    }

    // queueMaskedFrame: a masked control frame behind what tx already holds. The key is random.
    method QueueMaskedFrame(e: Event, key: seq<byte>) returns (ok: bool)
      requires IsReply(e) && |key| == 4
      modifies this`wantIn, this`wantOut, this`tx
      ensures tx == old(tx) + WireReplies([Reply(e, key)])
      ensures ok == connected && (ok ==> Listens())
    {
      var hdr := [128 + ReplyFrame(e).opcode, 128 + |e.payload|] + key;
      tx := tx + hdr;
      var masked := MaskedCopy(e.payload, key);
      tx := tx + masked;
      Assoc(old(tx), hdr, masked);
      WireRepliesOne(Reply(e, key));
      ok := UpdateEvents();
    }

    // Answering with CLOSE starts closing (beginClose).
    method Answer(e: Event) returns (ghost rs: seq<Reply>)
      requires Reading() && IsReply(e)
      modifies this`state, this`wantIn, this`wantOut, this`tx
      ensures Valid() && state == (if e.SentClose? then Closing else Open)
      ensures tx == old(tx) + WireReplies(rs) && Events(rs) == RepliesOf([e]) && MsgsOf(id, [e]) == []
    {
      if e.SentClose? {
        state := Closing;
      }
      var key := RandomKey();
      var ok := QueueMaskedFrame(e, key);
      rs := [Reply(e, key)];
    }

    // ---------------------------------------------------------------- one frame off the buffer

    // What the header and the length of rx decide.
    method NextFrame(cfg: Config) returns (x: Front)
      ensures x == AtFront(Client, cfg, rx)
    {
      var v := ParseHeader(rx);
      match v {
        case NeedMore => return Partial;
        case Malformed => return Refused(1002);
        case Parsed(h) =>
          if h.masked {
            return Refused(1002);
          }
          if h.payloadLen > cfg.maxFrame {
            return Refused(1009);
          }
          var frameLen := h.headerLen + h.payloadLen;
          if |rx| < frameLen {
            return Partial;
          }
          x := Whole(Frame(h.fin, h.opcode, rx[h.headerLen..frameLen]), frameLen);
      }
    }

    // The control frame f is the first frameLen bytes of rx.
    method TakeControl(f: Frame, frameLen: nat) returns (answer: Option<Event>)
      requires Reading() && IsControl(f.opcode) && frameLen <= |rx|
      modifies this`rx
      ensures var o := OnControl(Client, Abs(), f);
              Opt(answer) == o.events && rx == (if o.consumed then old(rx)[frameLen..] else old(rx))
    {
      if f.opcode == PING {
        answer := Some(Pong(f.payload));
      } else if f.opcode == CLOSE {
        if |f.payload| == 1 {
          return Some(SentClose(CloseBody(1002)));
        }
        answer := Some(SentClose(f.payload));
      } else {
        answer := None;
      }
      rx := rx[frameLen..];
    }

    // The fragment bookkeeping before a data frame's payload is looked at: 1002 and 1009.
    method AdmitData(opcode: nat, n: nat, cfg: Config) returns (code: nat)
      requires Reading() && !IsControl(opcode)
      modifies this`msgOpcode, this`fragmenting, this`msg, this`msgUtf8
      ensures (Abs(), code) == Admit(cfg, old(Abs()), opcode, n)
    {
      if opcode == CONT {
        if !fragmenting {
          return 1002;
        }
      } else {
        if fragmenting {
          return 1002;
        }
        msgOpcode, fragmenting, msg, msgUtf8 := opcode, true, [], Utf8.START;
      }
      if |msg| > cfg.maxMessage || n > cfg.maxMessage - |msg| {
        return 1009;
      }
      return 0;
    }

    // An admitted payload goes through the UTF-8 checker into msg; `consumed` when it got there.
    method GatherData(fin: bool, payload: seq<byte>) returns (code: nat, consumed: bool)
      requires Reading()
      modifies this`fragmenting, this`msg, this`msgUtf8
      ensures Gathered(Abs(), code, consumed) == Gather(old(Abs()), fin, payload)
    {
      if msgOpcode == TEXT && |payload| > 0 {
        var good;
        good, msgUtf8 := Utf8.FeedBytes(msgUtf8, payload);
        if !good {
          return 1007, false;
        }
      }
      msg := msg + payload;
      fragmenting := !fin;
      code := if fin && msgOpcode == TEXT && msgUtf8.need != 0 then 1007 else 0;
      consumed := true;
    }

    // The data frame f is the first frameLen bytes of rx. `complete` when msg now holds a message.
    method TakeData(f: Frame, frameLen: nat, cfg: Config) returns (answer: Option<Event>, complete: bool)
      requires Reading() && !IsControl(f.opcode) && frameLen <= |rx|
      modifies this`msgOpcode, this`fragmenting, this`rx, this`msg, this`msgUtf8
      ensures var o := OnData(cfg, old(Abs()), f);
              && rx == (if o.consumed then old(rx)[frameLen..] else old(rx))
              && (if complete then answer == None && o.events == [Publish(msgOpcode, msg)]
                                   && Abs() == o.st.(acc := msg) && o.st.acc == []
                  else Opt(answer) == o.events && Abs() == o.st.(closing := false)
                       && o.st.closing == answer.Some?)
      ensures answer.Some? ==> IsReply(answer.value) && answer.value.SentClose?
    {
      var consumed := false;
      var code := AdmitData(f.opcode, |f.payload|, cfg);
      if code == 0 {
        code, consumed := GatherData(f.fin, f.payload);
      }
      if consumed {
        rx := rx[frameLen..];
      }
      answer := if code == 0 then None else Some(SentClose(CloseBody(code)));
      complete := code == 0 && f.fin;
    }

    // publishReactorMessage, and the reset of msg behind it: into the data queue, or kept pending
    // when the queue is full.
    method PublishMessage(q: Queue<Stamped>, high: nat) returns (rc: int)
      requires Reading() && q.Valid() && this !in q.Repr
      modifies this`pendingMsg, this`readPaused, this`wantIn, this`wantOut, this`msg, q.Repr
      ensures Valid() && q.Valid() && fresh(q.Repr - old(q.Repr))
      ensures Carried(id, [Publish(msgOpcode, old(msg))], old(Unstamped(q.Contents())), Unstamped(q.Contents()),
                      Plain(pendingMsg), [], high)
      ensures old(q.Contents()) <= q.Contents() && msg == []
      ensures rc == if readPaused then 1 else 0
    {
      var at := ClockNow();
      var m := Stamped(Msg(id, msgOpcode, msg), at);
      UnstampedAdd(q.Contents(), m);
      msg := [];
      if q.size >= high {
        pendingMsg, readPaused := Some(m), true;
        var ok := UpdateEvents();
        return 1;
      }
      q.Push(m);
      return 0;
    }

    // One step of the one-pass assembler, up to what it sends or publishes.
    method Consider(cfg: Config) returns (moved: bool, answer: Option<Event>, complete: bool)
      requires Reading()
      modifies this`msgOpcode, this`fragmenting, this`rx, this`msg, this`msgUtf8
      ensures moved <==> Step(Client, cfg, old(Abs()), old(rx)).Go?
      ensures !moved ==> Abs() == old(Abs()) && rx == old(rx) && !complete && answer == None
      ensures moved ==>
                var m := Step(Client, cfg, old(Abs()), old(rx));
                && rx == old(rx)[m.used..]
                && (if complete then answer == None && m.events == [Publish(msgOpcode, msg)]
                                     && m.st == Abs().(acc := [])
                    else Opt(answer) == m.events
                         && m.st == Abs().(closing := answer.Some? && answer.value.SentClose?))
      ensures answer.Some? ==> IsReply(answer.value)
    {
      moved, answer, complete := true, None, false;
      WholeIsLegal(Client, cfg, rx);
      var x := NextFrame(cfg);
      match x {
        case Partial =>
          moved := false;
        case Refused(code) =>
          answer := Some(SentClose(CloseBody(code)));
        case Whole(f, frameLen) =>
          if IsControl(f.opcode) {
            answer := TakeControl(f, frameLen);
          } else {
            answer, complete := TakeData(f, frameLen, cfg);
          }
      }
    }

    // What a step sends or publishes.
    method CarryOut(answer: Option<Event>, complete: bool, q: Queue<Stamped>, high: nat) returns (ghost rs: seq<Reply>)
      requires Reading() && q.Valid() && this !in q.Repr
      requires (complete ==> answer == None) && (answer.Some? ==> IsReply(answer.value))
      modifies this`pendingMsg, this`readPaused, this`wantIn, this`wantOut, this`msg, this`state, this`tx, q.Repr
      ensures Valid() && q.Valid() && fresh(q.Repr - old(q.Repr))
      ensures tx == old(tx) + WireReplies(rs)
      ensures Carried(id, if complete then [Publish(msgOpcode, old(msg))] else Opt(answer),
                      old(Unstamped(q.Contents())), Unstamped(q.Contents()), Plain(pendingMsg), rs, high)
      ensures old(q.Contents()) <= q.Contents()
      ensures Abs() == old(Abs()).(acc := if complete then [] else old(msg),
                                   closing := answer.Some? && answer.value.SentClose?)
      ensures state in {Open, Closing}
      ensures !complete && answer == None ==> pendingMsg == None && rs == []
    {
      rs := [];
      assert Wires(rs) == [] && tx + [] == tx && Events(rs) == [];
      assert Unstamped(q.Contents()) + [] == Unstamped(q.Contents());
      if complete {
        var rc := PublishMessage(q, high);
      } else if answer.Some? {
        rs := Answer(answer.value);
      }
    }

    // One turn of the loop of processBufferedFrames.
    method TakeFrame(cfg: Config, q: Queue<Stamped>, high: nat) returns (moved: bool, ghost rs: seq<Reply>)
      requires Reading() && q.Valid() && this !in q.Repr
      modifies this, q.Repr
      ensures Valid() && state in {Open, Closing}
      ensures q.Valid() && fresh(q.Repr - old(q.Repr))
      ensures moved <==> Step(Client, cfg, old(Abs()), old(rx)).Go?
      ensures !moved ==> Abs() == old(Abs()) && rx == old(rx) && tx == old(tx)
      ensures !moved ==> q.Contents() == old(q.Contents()) && pendingMsg == None && rs == []
      ensures moved ==>
                var m := Step(Client, cfg, old(Abs()), old(rx));
                && Abs() == m.st && rx == old(rx)[m.used..]
                && tx == old(tx) + WireReplies(rs)
                && Carried(id, m.events, old(Unstamped(q.Contents())), Unstamped(q.Contents()),
                           Plain(pendingMsg), rs, high)
      ensures old(q.Contents()) <= q.Contents()
    {
      var answer, complete;
      ghost var m := Step(Client, cfg, Abs(), rx);
      moved, answer, complete := Consider(cfg);
      assert moved ==> m.events == if complete then [Publish(msgOpcode, msg)] else Opt(answer);
      rs := CarryOut(answer, complete, q, high);
    }

    // ---------------------------------------------------------------- the loop

    ghost function Now(q: Queue<Stamped>): Snap
      reads this, q, q.Repr
      requires q.Valid()
    {
      Snap(Abs(), rx, Unstamped(q.Contents()), tx, Plain(pendingMsg))
    }

    // One turn of the loop, and where the pass that began at `start` stands after it.
    method Turn(cfg: Config, q: Queue<Stamped>, high: nat, ghost start: Snap, ghost es: seq<Event>,
                ghost rs: seq<Reply>)
      returns (going: bool, ghost es': seq<Event>, ghost rs': seq<Reply>)
      requires Reading() && q.Valid() && this !in q.Repr
      requires Through(Client, cfg, id, high, start, Now(q), es, rs)
      modifies this, q.Repr
      ensures Valid() && state in {Open, Closing}
      ensures q.Valid() && fresh(q.Repr - old(q.Repr)) && old(q.Contents()) <= q.Contents()
      ensures if going then Reading() && |rx| < |old(rx)| && Through(Client, cfg, id, high, start, Now(q), es', rs')
              else Finished(Client, cfg, id, high, start, Now(q), rs')
    {
      ghost var b := Now(q);
      var moved;
      ghost var more;
      moved, more := TakeFrame(cfg, q, high);
      if moved {
        TurnGoes(Client, cfg, id, high, start, b, Now(q), es, rs, more);
        es', rs' := es + Step(Client, cfg, b.st, b.rx).events, rs + more;
        going := !readPaused && state == Open;
      } else {
        TurnWaits(Client, cfg, id, high, start, b, es, rs);
        going, es', rs' := false, es, rs;
      }
    }

    // processBufferedFrames: 1 when it stopped because the data queue is full, else 0.
    method ProcessBufferedFrames(cfg: Config, q: Queue<Stamped>, high: nat) returns (rc: int, ghost rs: seq<Reply>)
      requires Reading() && q.Valid() && this !in q.Repr
      modifies this, q.Repr
      ensures Valid() && state in {Open, Closing}
      ensures q.Valid() && fresh(q.Repr - old(q.Repr)) && old(q.Contents()) <= q.Contents()
      ensures Finished(Client, cfg, id, high, old(Now(q)), Now(q), rs)
      ensures rc == if readPaused then 1 else 0
    {
      rs := [];
      ghost var es: seq<Event> := [];
      ghost var start := Now(q);
      ThroughStart(Client, cfg, id, high, start);
      while |rx| > 0
        invariant Reading() && q.Valid() && fresh(q.Repr - old(q.Repr)) && this !in q.Repr
        invariant old(q.Contents()) <= q.Contents()
        invariant Through(Client, cfg, id, high, start, Now(q), es, rs)
        decreases |rx|
      {
        var going;
        going, es, rs := Turn(cfg, q, high, start, es, rs);
        if !going {
          return if readPaused then 1 else 0, rs;
        }
      }
      TurnWaits(Client, cfg, id, high, start, Now(q), es, rs);
      rc := 0;
    }

    // A chunk from recv(), parsed at once. Since `start`, x was done.
    method TakeChunk(cfg: Config, q: Queue<Stamped>, high: nat, chunk: seq<byte>, ghost start: Snap, ghost x: Deeds)
      returns (ghost y: Deeds)
      requires Reading() && q.Valid() && this !in q.Repr
      requires HasDone(Client, cfg, id, high, start, Now(q), x)
      modifies this, q.Repr
      ensures Valid() && state in {Open, Closing}
      ensures q.Valid() && fresh(q.Repr - old(q.Repr)) && old(q.Contents()) <= q.Contents()
      ensures HasDone(Client, cfg, id, high, start, Now(q), y) && y.got == x.got + chunk
      ensures Stopped(cfg, high, old(|q.Contents()|), Now(q))
    {
      ghost var b := Now(q);
      rx := rx + chunk;
      ghost var from := Now(q);
      var rc;
      ghost var more;
      rc, more := ProcessBufferedFrames(cfg, q, high);
      y := ChunkDone(Client, cfg, id, high, start, b, x, chunk, Now(q), more);
      FinishedQueue(Client, cfg, id, high, from, Now(q), more);
    }

    // One recv() and what follows from it. Since `start`, x was done, with the socket at script0
    // and taken0 then.
    method ReadOnce(cfg: Config, q: Queue<Stamped>, high: nat, s: InSocket,
                    ghost start: Snap, ghost script0: seq<Arrival>, ghost taken0: seq<byte>, ghost x: Deeds)
      returns (going: bool, rc: int, ghost y: Deeds)
      requires Reading() && q.Valid() && this !in q.Repr && s !in q.Repr && s as object != this
      requires HasDone(Client, cfg, id, high, start, Now(q), x) && Came(script0, x.got, s.script)
      requires Stopped(cfg, high, |start.queue|, Now(q)) && s.taken == taken0 + x.got
      modifies this, q.Repr, s
      ensures Valid() && state in {Open, Closing}
      ensures q.Valid() && fresh(q.Repr - old(q.Repr)) && old(q.Contents()) <= q.Contents()
      ensures HasDone(Client, cfg, id, high, start, Now(q), y) && s.taken == taken0 + y.got
      ensures Stopped(cfg, high, |start.queue|, Now(q))
      ensures if going then Came(script0, y.got, s.script) && Weight(s.script) < old(Weight(s.script)) && rc == 0
              else Reading() && ReadOut(script0, y.got, s.script, rc)
    {
      var r := RecvMore(s, 8192, script0, taken0, x.got);
      y, going := x, r.Got?;
      rc := if r.Closed? || r.Failed? then -1 else 0;
      if r.Got? {
        y := TakeChunk(cfg, q, high, r.bytes, start, x);
      }
    }

    // readUpstreamFrames: what rx holds first, then every chunk recv() gives, until the client is
    // paused or closing or the socket has nothing more. -1 when the socket is closed or broken.
    method ReadUpstreamFrames(cfg: Config, q: Queue<Stamped>, high: nat, s: InSocket) returns (rc: int, ghost x: Deeds)
      requires Reading() && q.Valid() && this !in q.Repr && s !in q.Repr && s as object != this
      modifies this, q.Repr, s
      ensures Valid() && state in {Open, Closing}
      ensures q.Valid() && fresh(q.Repr - old(q.Repr)) && old(q.Contents()) <= q.Contents()
      // Every pass is one of the assembler's, over bytes that were read while the client was reading.
      ensures HasDone(Client, cfg, id, high, old(Now(q)), Now(q), x) && s.taken == old(s.taken) + x.got
      // It goes on until the socket has nothing more, has ended, or the client stops reading, which is
      // when it closes or finds the queue full.
      ensures if Reading() then ReadOut(old(s.script), x.got, s.script, rc)
              else rc == 0 && Came(old(s.script), x.got, s.script)
      ensures Stopped(cfg, high, old(|q.Contents()|), Now(q))
    {
      ghost var start, script0, taken0 := Now(q), s.script, s.taken;
      NothingDone(Client, cfg, id, high, start);
      x := TakeChunk(cfg, q, high, [], start, Deeds([], [], []));
      while state == Open && !readPaused
        invariant Valid() && state in {Open, Closing}
        invariant q.Valid() && fresh(q.Repr - old(q.Repr)) && this !in q.Repr && s !in q.Repr
        invariant old(q.Contents()) <= q.Contents()
        invariant HasDone(Client, cfg, id, high, start, Now(q), x) && s.taken == taken0 + x.got
        invariant Stopped(cfg, high, |start.queue|, Now(q)) && Came(script0, x.got, s.script)
        decreases Weight(s.script)
      {
        var going;
        going, rc, x := ReadOnce(cfg, q, high, s, start, script0, taken0, x);
        if !going {
          return;
        }
      }
      rc := 0;
    }

    // One send() of what is queued.
    method SendTx(s: OutSocket) returns (r: Sent)
      requires tx != [] && s as object != this
      modifies this`tx, s
      ensures s.sent + tx == old(s.sent + tx) && |tx| == |old(tx)| - (if r.Took? then r.n else 0)
      ensures r.Took? ==> r.n > 0
      ensures SendAll(old(s.script), |old(tx)|)
              == match r
                 case Took(_) => SendAll(s.script, |tx|)
                 case Blocked => Run(|tx|, s.script, Stuck)
                 case Broken => Run(|tx|, s.script, Dead)
    {
      ghost var sent0, tx0 := s.sent, tx;
      r := s.Send(tx);
      if r.Took? {
        tx := tx[r.n..];
        assert sent0 + tx0 == sent0 + tx0[..r.n] + tx0[r.n..];
      }
    }

    // flushUpstreamTx: bytes leave in order, as many as the socket takes; what is left stays for the
    // next EPOLLOUT. -1 when the socket is broken.
    method FlushUpstreamTx(s: OutSocket) returns (rc: int)
      requires connected && s as object != this
      modifies this`tx, this`wantIn, this`wantOut, s
      ensures s.sent + tx == old(s.sent + tx)
      ensures var run := SendAll(old(s.script), |old(tx)|);
              |tx| == run.left && s.script == run.script && rc == (if run.end.Dead? then -1 else 0)
      ensures tx == [] <==> |old(tx)| <= Offer(old(s.script))
      ensures rc == if tx != [] && Obstacle(old(s.script)).Dead? then -1 else 0
      ensures rc == 0 ==> Listens() && (old(Valid()) ==> Valid())
      ensures rc == 0 ==> (wantOut <==> state == Connecting || tx != [])
      ensures rc == -1 ==> wantIn == old(wantIn) && wantOut == old(wantOut)
    {
      SendAllMeans(s.script, |tx|);
      while |tx| > 0
        invariant s.sent + tx == old(s.sent + tx)
        invariant SendAll(s.script, |tx|) == SendAll(old(s.script), |old(tx)|)
        invariant wantIn == old(wantIn) && wantOut == old(wantOut)
        decreases |tx|
      {
        var r := SendTx(s);
        match r {
          case Took(_) =>
          case Blocked => break;
          case Broken => return -1;
        }
      }
      var ok := UpdateEvents();
      rc := 0;
    }

    // upstreamDisconnect: everything about the connection is forgotten, the pending message with it,
    // and the time to connect again is set by the attempts so far.
    method Disconnect(nowMs: nat)
      modifies this
      ensures Valid() && state == Disconnected && rx == tx == msg == [] && !fragmenting && pendingMsg == None
      ensures reconnectAtMs == nowMs + Delay(old(reconnectAttempt))
      ensures reconnectAttempt
              == if old(reconnectAttempt) < 10 then old(reconnectAttempt) + 1 else old(reconnectAttempt)
    {
      connected := false;
      rx, tx, msg := [], [], [];
      fragmenting, readPaused, pendingMsg := false, false, None;
      state := Disconnected;
      var delay := ReconnectDelay(reconnectAttempt);
      if reconnectAttempt < 10 {
        reconnectAttempt := reconnectAttempt + 1;
      }
      reconnectAtMs := nowMs + delay;
    }
  }

  // From a queue of n messages on: the queue only grows, and within its mark; the client stops for it
  // only when it is full, and otherwise leaves nothing that could still be done.
  ghost predicate Stopped(cfg: Config, high: nat, n: nat, now: Snap) {
    && n <= |now.queue| && (n <= high ==> |now.queue| <= high)
    && (now.pending.Some? ==> |now.queue| >= high)
    && (now.pending == None ==> Step(Client, cfg, now.st, now.rx) == Wait)
  }
}
