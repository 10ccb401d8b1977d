// The message assembler that src/worker.c (handleWsOpen) and src/ws_client.c
// (processBufferedFrames) both implement: one pure pass from bytes to messages and replies.
// Sections 5.2 to 5.5, 7.4 and 8.1 of RFC 6455.
module Assembler {
  import opened Bytes
  import opened Frames
  import Utf8

  datatype Config = Config(maxFrame: nat, maxMessage: nat)

  // Server: the worker's side, which demands masked frames. Client: the upstream reactor's side.
  datatype Role = Server | Client

  datatype Event =
    | Publish(opcode: nat, payload: seq<byte>)
    | Pong(payload: seq<byte>)
    | SentClose(payload: seq<byte>)

  datatype State = State(fragmenting: bool, opcode: nat, acc: seq<byte>, utf8: Utf8.State, closing: bool)

  const OPEN := State(false, 0, [], Utf8.START, false)

  // ---------------------------------------------------------------- one frame

  function CloseBody(code: nat): (p: seq<byte>)
    requires code < 65536
    ensures |p| == 2
  {
    [code / 256, code % 256]
  }

  predicate ValidCloseCode(code: nat) {
    1000 <= code <= 1003 || 1007 <= code <= 1011 || 3000 <= code <= 4999
  }

  // The code the server answers a CLOSE frame with.
  function ReplyCode(p: seq<byte>): (code: nat)
    ensures code < 65536
  {
    if |p| == 0 then 1000
    else if |p| == 1 then 1002
    else
      var code := (p[0] as int) * 256 + p[1];
      if !ValidCloseCode(code) then 1002
      else if !Utf8.Accepts(p[2..]) then 1007
      else code
  }

  // The state after a frame, whether the frame is taken off the buffer, and what it causes.
  datatype Outcome = Outcome(st: State, consumed: bool, events: seq<Event>)

  function Violation(st: State, code: nat): Outcome
    requires code < 65536
  {
    Outcome(st.(closing := true), false, [SentClose(CloseBody(code))])
  }

  function OnControl(role: Role, st: State, f: Frame): Outcome {
    if f.opcode == PING then Outcome(st, true, [Pong(f.payload)])
    else if f.opcode == CLOSE then
      match role
      case Server => Outcome(st.(closing := true), true, [SentClose(CloseBody(ReplyCode(f.payload)))])
      case Client =>
        if |f.payload| == 1 then Violation(st, 1002)
        else Outcome(st.(closing := true), true, [SentClose(f.payload)])
    else Outcome(st, true, [])
  }

  // Fragment bookkeeping and the size limit: the state, and the close code of a violation or 0.
  function Admit(cfg: Config, st: State, opcode: nat, n: nat): (r: (State, nat))
    ensures r.1 in {0, 1002, 1009}
  {
    if (opcode == CONT) != st.fragmenting then (st, 1002)
    else
      var st1 := if opcode == CONT then st else State(true, opcode, [], Utf8.START, false);
      (st1, if |st1.acc| + n > cfg.maxMessage then 1009 else 0)
  }

  // An admitted payload, checked and collected. The code is 0, or 1007 for text that cannot be
  // UTF-8 (the frame is then left in the buffer) or that ends inside a character (it is not).
  datatype Gathered = Gathered(st: State, code: nat, consumed: bool)

  function Gather(st: State, fin: bool, payload: seq<byte>): (g: Gathered)
    ensures g.code in {0, 1007}
    ensures g.code == 0 ==> g.consumed && g.st.fragmenting == !fin
  {
    var fed := if st.opcode == TEXT then Utf8.Feed(st.utf8, payload) else Utf8.Fed(true, st.utf8);
    var st2 := st.(utf8 := fed.st);
    if !fed.good then Gathered(st2, 1007, false)
    else
      var st3 := st2.(acc := st2.acc + payload, fragmenting := !fin);
      Gathered(st3, if fin && st3.opcode == TEXT && !Utf8.Done(st3.utf8) then 1007 else 0, true)
  }

  // And published when the frame is final.
  function Collect(st: State, fin: bool, payload: seq<byte>): Outcome {
    var g := Gather(st, fin, payload);
    if g.code != 0 then Outcome(g.st.(closing := true), g.consumed, [SentClose(CloseBody(g.code))])
    else if !fin then Outcome(g.st, true, [])
    else Outcome(g.st.(acc := []), true, [Publish(g.st.opcode, g.st.acc)])
  }

  function OnData(cfg: Config, st: State, f: Frame): Outcome {
    var (st1, code) := Admit(cfg, st, f.opcode, |f.payload|);
    if code != 0 then Violation(st1, code) else Collect(st1, f.fin, f.payload)
  }

  function OnFrame(role: Role, cfg: Config, st: State, f: Frame): (o: Outcome)
    ensures !o.st.closing && !st.closing ==> o.consumed
    ensures |o.events| <= 1
  {
    if IsControl(f.opcode) then OnControl(role, st, f) else OnData(cfg, st, f)
  }

  // ---------------------------------------------------------------- one step on the byte stream

  // Wait: nothing can be done before more bytes come. Go: the new state, the number of bytes
  // taken off the buffer, and the events.
  datatype Move = Wait | Go(st: State, used: nat, events: seq<Event>)

  // What stands at the front of the buffer: not enough bytes, a header to refuse, or a whole frame
  // (unmasked) of n bytes.
  datatype Front = Partial | Refused(code: nat) | Whole(frame: Frame, n: nat)

  function AtFront(role: Role, cfg: Config, rx: seq<byte>): (x: Front)
    ensures x.Refused? ==> x.code in {1002, 1009}
    ensures x.Whole? ==> 2 <= x.n <= |rx|
  {
    match Parse(rx)
    case NeedMore => Partial
    case Malformed => Refused(1002)
    case Parsed(h) =>
      if h.masked != role.Server? then Refused(1002)
      else if h.payloadLen > cfg.maxFrame then Refused(1009)
      else if |rx| < h.headerLen + h.payloadLen then Partial
      else
        var payload := Mask(rx[h.headerLen..h.headerLen + h.payloadLen], h.maskKey);
        Whole(Frame(h.fin, h.opcode, payload), h.headerLen + h.payloadLen)
  }

  function Step(role: Role, cfg: Config, st: State, rx: seq<byte>): (m: Move)
    ensures m.Go? ==> m.used <= |rx| && (m.used == 0 ==> m.st.closing) && |m.events| <= 1
  {
    if st.closing then Wait
    else
      match AtFront(role, cfg, rx)
      case Partial => Wait
      case Refused(code) => Go(st.(closing := true), 0, [SentClose(CloseBody(code))])
      case Whole(f, n) =>
        var o := OnFrame(role, cfg, st, f);
        Go(o.st, if o.consumed then n else 0, o.events)
  }

  // A frame taken off the buffer is one a peer may send.
  lemma WholeIsLegal(role: Role, cfg: Config, rx: seq<byte>)
    ensures var x := AtFront(role, cfg, rx);
            x.Whole? ==> x.frame.Legal() && |x.frame.payload| <= cfg.maxFrame
  {
    if Parse(rx).Parsed? {
      AcceptedIsCanonical(rx);
    }
  }

  // What the first frame's header alone decides: 1002 for a malformed header or the wrong masking, 1009 for
  // a payload that is too long, and otherwise the whole frame is waited for.
  lemma {:induction false} ClosesAtHeader(role: Role, cfg: Config, st: State, rx: seq<byte>)
    requires !st.closing
    ensures Step(role, cfg, st, rx)
            == match Parse(rx)
               case NeedMore => Wait
               case Malformed => Go(st.(closing := true), 0, [SentClose([3, 234])])
               case Parsed(h) =>
                 if h.masked == (role == Client) then Go(st.(closing := true), 0, [SentClose([3, 234])])
                 else if h.payloadLen > cfg.maxFrame then Go(st.(closing := true), 0, [SentClose([3, 241])])
                 else if |rx| < h.headerLen + h.payloadLen then Wait
                 else
                   var payload := Mask(rx[h.headerLen..h.headerLen + h.payloadLen], h.maskKey);
                   var o := OnFrame(role, cfg, st, Frame(h.fin, h.opcode, payload));
                   Go(o.st, if o.consumed then h.headerLen + h.payloadLen else 0, o.events)
  {
  }

  // A continuation of nothing, and a new message inside another, close with 1002; a message that grows
  // beyond the limit closes with 1009. The frame stays in the buffer.
  lemma {:induction false} ClosesForFragments(role: Role, cfg: Config, st: State, f: Frame)
    requires f.opcode in {0, 1, 2}
    ensures (f.opcode == 0 && !st.fragmenting) || (f.opcode != 0 && st.fragmenting) ==>
              OnFrame(role, cfg, st, f) == Outcome(st.(closing := true), false, [SentClose([3, 234])])
    ensures f.opcode == 0 && st.fragmenting && |st.acc| + |f.payload| > cfg.maxMessage ==>
              OnFrame(role, cfg, st, f) == Outcome(st.(closing := true), false, [SentClose([3, 241])])
    ensures f.opcode != 0 && !st.fragmenting && |f.payload| > cfg.maxMessage ==>
              OnFrame(role, cfg, st, f)
              == Outcome(State(true, f.opcode, [], Utf8.START, true), false, [SentClose([3, 241])])
  {
  }

  // The close codes that a peer may send.
  ghost predicate MaySend(code: nat) {
    code in {1000, 1001, 1002, 1003, 1007, 1008, 1009, 1010, 1011} || 3000 <= code <= 4999
  }

  // Control frames, by their numbers in section 5.2 of RFC 6455: 9 is answered with its payload, 10 with
  // nothing, and 8 starts closing. The server answers it with its own code when that may be sent and the
  // reason is text, and otherwise with 1000, 1002 or 1007; the client echoes all of it, unless it is one
  // byte, which it leaves in the buffer and answers with 1002.
  lemma {:induction false} AnswersControl(role: Role, cfg: Config, st: State, f: Frame)
    requires f.opcode in {8, 9, 10}
    ensures f.opcode == 9 ==> OnFrame(role, cfg, st, f) == Outcome(st, true, [Pong(f.payload)])
    ensures f.opcode == 10 ==> OnFrame(role, cfg, st, f) == Outcome(st, true, [])
    ensures f.opcode == 8 && role == Client ==>
              OnFrame(role, cfg, st, f)
              == if |f.payload| == 1 then Outcome(st.(closing := true), false, [SentClose([3, 234])])
                 else Outcome(st.(closing := true), true, [SentClose(f.payload)])
    ensures f.opcode == 8 && role == Server ==>
              OnFrame(role, cfg, st, f)
              == Outcome(st.(closing := true), true,
                         [SentClose(if |f.payload| == 0 then [3, 232]
                                    else if |f.payload| == 1 then [3, 234]
                                    else if !MaySend((f.payload[0] as int) * 256 + f.payload[1]) then [3, 234]
                                    else if !Utf8.WellFormed(f.payload[2..]) then [3, 239]
                                    else f.payload[..2])])
  {
    if |f.payload| >= 2 {
      Utf8.AcceptsIffWellFormed(f.payload[2..]);
      assert f.payload[..2] == [f.payload[0], f.payload[1]];
      var code := (f.payload[0] as int) * 256 + f.payload[1];
      assert CloseBody(code) == f.payload[..2];
    }
  }

  // ---------------------------------------------------------------- the whole stream

  datatype Result = Result(st: State, rest: seq<byte>, events: seq<Event>)
  {
    function After(earlier: seq<Event>): Result {
      this.(events := earlier + events)
    }
  }

  lemma AfterAfter(r: Result, a: seq<Event>, b: seq<Event>, c: seq<Event>)
    ensures r.After(b + c).After(a) == r.After(a + b + c)
    ensures r.After(c).After(a + b) == r.After(a + b + c)
    ensures r.After([]) == r
  {
    assert a + (b + c + r.events) == a + b + c + r.events;
    assert a + b + (c + r.events) == a + b + c + r.events;
    assert [] + r.events == r.events;
  }

  // One pass: every step that can be made on these bytes.
  function Decode(role: Role, cfg: Config, st: State, rx: seq<byte>): Result
    decreases |rx|
  {
    match Step(role, cfg, st, rx)
    case Wait => Result(st, rx, [])
    case Go(st', used, events) =>
      if st'.closing then Result(st', rx[used..], events)
      else Decode(role, cfg, st', rx[used..]).After(events)
  }

  lemma FrontIsStable(role: Role, cfg: Config, a: seq<byte>, b: seq<byte>)
    requires AtFront(role, cfg, a) != Partial
    ensures AtFront(role, cfg, a + b) == AtFront(role, cfg, a)
  {
    VerdictIsStable(a, b);
    if Parse(a).Parsed? {
      var h := Parse(a).header;
      if h.headerLen + h.payloadLen <= |a| {
        SliceOfConcat(a, b, h.headerLen, h.headerLen + h.payloadLen);
      }
    }
  }

  // A step that can be made is not changed by bytes that come later.
  lemma StepIsStable(role: Role, cfg: Config, st: State, a: seq<byte>, b: seq<byte>)
    requires Step(role, cfg, st, a).Go?
    ensures Step(role, cfg, st, a + b) == Step(role, cfg, st, a)
  {
    FrontIsStable(role, cfg, a, b);
  }

  // Decoding bytes in two pieces, keeping the unread rest in between, is decoding them at once.
  lemma {:induction false} DecodeConcat(role: Role, cfg: Config, st: State, a: seq<byte>, b: seq<byte>)
    ensures var r := Decode(role, cfg, st, a);
            Decode(role, cfg, st, a + b) == Decode(role, cfg, r.st, r.rest + b).After(r.events)
    decreases |a|
  {
    match Step(role, cfg, st, a) {
      case Wait =>
      case Go(st', used, events) =>
        StepIsStable(role, cfg, st, a, b);
        assert (a + b)[used..] == a[used..] + b;
        if !st'.closing {
          DecodeConcat(role, cfg, st', a[used..], b);
          var r := Decode(role, cfg, st', a[used..]);
          assert r.events + [] == r.events && events + r.events + [] == events + r.events;
          AfterAfter(Decode(role, cfg, r.st, r.rest + b), events, r.events, []);
        }
    }
  }

  // Nothing more can be done on what a pass leaves behind.
  lemma {:induction false} DecodeDrains(role: Role, cfg: Config, st: State, rx: seq<byte>)
    ensures var r := Decode(role, cfg, st, rx); Step(role, cfg, r.st, r.rest) == Wait
    decreases |rx|
  {
    match Step(role, cfg, st, rx) {
      case Wait =>
      case Go(st', used, events) =>
        if !st'.closing {
          DecodeDrains(role, cfg, st', rx[used..]);
        }
    }
  }

  // ---------------------------------------------------------------- backpressure

  // A pass that can hand over `room` messages before the data queue is found full: the next
  // complete message is kept pending and the pass stops there.
  datatype Stop = Stop(st: State, rx: seq<byte>, events: seq<Event>, pending: Option<Event>)
  {
    function After(earlier: seq<Event>): Stop {
      this.(events := earlier + events)
    }
  }

  function Pump(role: Role, cfg: Config, st: State, rx: seq<byte>, room: nat): Stop
    decreases |rx|
  {
    match Step(role, cfg, st, rx)
    case Wait => Stop(st, rx, [], None)
    case Go(st', used, events) =>
      if st'.closing then Stop(st', rx[used..], events, None)
      else if events != [] && events[0].Publish? then
        if room == 0 then Stop(st', rx[used..], [], Some(events[0]))
        else Pump(role, cfg, st', rx[used..], room - 1).After(events)
      else Pump(role, cfg, st', rx[used..], room).After(events)
  }

  // Stopping for backpressure only postpones: decoding what was left completes the same pass.
  lemma {:induction false} PumpIsPartOfDecode(role: Role, cfg: Config, st: State, rx: seq<byte>, room: nat)
    ensures var o := Pump(role, cfg, st, rx, room);
            && Decode(role, cfg, st, rx) == Decode(role, cfg, o.st, o.rx).After(o.events + Opt(o.pending))
            && (o.pending == None ==> Step(role, cfg, o.st, o.rx) == Wait)
            && (o.pending != None ==> o.pending.value.Publish? && !o.st.closing)
    decreases |rx|
  {
    match Step(role, cfg, st, rx) {
      case Wait =>
      case Go(st', used, events) =>
        if !st'.closing {
          var publishes := events != [] && events[0].Publish?;
          if publishes && room == 0 {
            assert events == [events[0]];
            assert [] + events == events;
          } else {
            var room' := if publishes then room - 1 else room;
            PumpIsPartOfDecode(role, cfg, st', rx[used..], room');
            var o := Pump(role, cfg, st', rx[used..], room');
            AfterAfter(Decode(role, cfg, o.st, o.rx), events, o.events, Opt(o.pending));
          }
        }
    }
  }

  lemma PumpPending(role: Role, cfg: Config, st: State, rx: seq<byte>, room: nat)
    ensures var o := Pump(role, cfg, st, rx, room); o.pending.Some? ==> o.pending.value.Publish? && !o.st.closing
  {
    PumpIsPartOfDecode(role, cfg, st, rx, room);
  }

  // ---------------------------------------------------------------- sessions

  // One connection over time. `log` is everything published or replied so far, in order, and
  // `pending` the message that waits for room in the data queue. `capped`: closed at the receive cap.
  datatype Session = Session(st: State, rx: seq<byte>, log: seq<Event>, pending: Option<Event>, capped: bool)

  // A connection as it opens: `early` came behind the handshake and is in its buffer already.
  function Opened(early: seq<byte>): Session {
    Session(OPEN, early, [], None, false)
  }

  // Receive: a readable event that brought `chunk` (possibly empty), with room for `room`
  // messages before the queue is found full. Overflow: one that brought `chunk` and reached the
  // receive cap. Release: the pending message is pushed.
  datatype Act = Receive(chunk: seq<byte>, room: nat) | Overflow(chunk: seq<byte>) | Release

  // Bytes are read only while the connection is neither paused nor closing.
  predicate Reading(s: Session) {
    s.pending == None && !s.st.closing
  }

  function Do(role: Role, cfg: Config, s: Session, a: Act): Session {
    match a
    case Release => s.(log := s.log + Opt(s.pending), pending := None)
    case Overflow(chunk) =>
      if !Reading(s) then s
      else
        s.(st := s.st.(closing := true), rx := s.rx + chunk,
           log := s.log + [SentClose(CloseBody(1009))], capped := true)
    case Receive(chunk, room) =>
      if !Reading(s) then s
      else
        var o := Pump(role, cfg, s.st, s.rx + chunk, room);
        Session(o.st, o.rx, s.log + o.events, o.pending, false)
  }

  function DoAll(role: Role, cfg: Config, s: Session, acts: seq<Act>): Session {
    if acts == [] then s
    else Do(role, cfg, DoAll(role, cfg, s, acts[..|acts| - 1]), acts[|acts| - 1])
  }

  // The bytes actually taken from the socket.
  function TakenBy(s: Session, a: Act): seq<byte> {
    if !a.Release? && Reading(s) then a.chunk else []
  }

  function Taken(role: Role, cfg: Config, s: Session, acts: seq<Act>): seq<byte> {
    if acts == [] then []
    else
      var before := acts[..|acts| - 1];
      Taken(role, cfg, s, before) + TakenBy(DoAll(role, cfg, s, before), acts[|acts| - 1])
  }

  // What the one-pass decoder gives on these bytes is what has been done, plus the pending message,
  // plus what is still to come from the buffer.
  ghost predicate OnePass(role: Role, cfg: Config, s: Session, bytes: seq<byte>) {
    && !s.capped
    && Decode(role, cfg, OPEN, bytes) == Decode(role, cfg, s.st, s.rx).After(s.log + Opt(s.pending))
  }

  // A session that was closed at the receive cap, without the cap.
  ghost function Uncapped(s: Session): Session
    requires s.capped && s.log != []
  {
    Session(s.st.(closing := false), s.rx, s.log[..|s.log| - 1], None, false)
  }

  // The cap adds its CLOSE to one pass over the bytes so far, and that is all it does.
  ghost predicate OnePassThenCap(role: Role, cfg: Config, s: Session, bytes: seq<byte>) {
    && s.capped && s.st.closing && s.pending == None
    && s.log != [] && s.log[|s.log| - 1] == SentClose(CloseBody(1009))
    && OnePass(role, cfg, Uncapped(s), bytes)
  }

  lemma ReceiveIsOnePass(role: Role, cfg: Config, s: Session, bytes: seq<byte>, chunk: seq<byte>, room: nat)
    requires Reading(s)
    requires Decode(role, cfg, OPEN, bytes) == Decode(role, cfg, s.st, s.rx).After(s.log)
    ensures var o := Pump(role, cfg, s.st, s.rx + chunk, room);
            Decode(role, cfg, OPEN, bytes + chunk)
            == Decode(role, cfg, o.st, o.rx).After(s.log + o.events + Opt(o.pending))
  {
    var q := Decode(role, cfg, s.st, s.rx);
    var o := Pump(role, cfg, s.st, s.rx + chunk, room);
    DecodeConcat(role, cfg, OPEN, bytes, chunk);
    DecodeConcat(role, cfg, s.st, s.rx, chunk);
    PumpIsPartOfDecode(role, cfg, s.st, s.rx + chunk, room);
    var last := Decode(role, cfg, q.st, q.rest + chunk);
    calc {
      Decode(role, cfg, OPEN, bytes + chunk);
      last.After(s.log + q.events);
      {
        AfterAfter(last, s.log, q.events, []);
        assert q.events + [] == q.events && s.log + q.events + [] == s.log + q.events;
      }
      last.After(q.events).After(s.log);
      Decode(role, cfg, s.st, s.rx + chunk).After(s.log);
      Decode(role, cfg, o.st, o.rx).After(o.events + Opt(o.pending)).After(s.log);
      { AfterAfter(Decode(role, cfg, o.st, o.rx), s.log, o.events, Opt(o.pending)); }
      Decode(role, cfg, o.st, o.rx).After(s.log + o.events + Opt(o.pending));
    }
  }

  // At the cap the chunk is only stored.
  lemma OverflowIsOnePass(role: Role, cfg: Config, s: Session, bytes: seq<byte>, chunk: seq<byte>)
    requires OnePass(role, cfg, s, bytes) && Reading(s)
    ensures OnePassThenCap(role, cfg, Do(role, cfg, s, Overflow(chunk)), bytes + chunk)
  {
    var t := Do(role, cfg, s, Overflow(chunk));
    assert Uncapped(t) == s.(rx := s.rx + chunk);
    DecodeConcat(role, cfg, OPEN, bytes, chunk);
    DecodeConcat(role, cfg, s.st, s.rx, chunk);
    assert s.log + [] == s.log;
    var q := Decode(role, cfg, s.st, s.rx);
    var last := Decode(role, cfg, q.st, q.rest + chunk);
    AfterAfter(last, s.log, q.events, []);
    assert q.events + [] == q.events && s.log + q.events + [] == s.log + q.events;
  }

  ghost predicate PassToCap(role: Role, cfg: Config, s: Session, bytes: seq<byte>) {
    if s.capped then OnePassThenCap(role, cfg, s, bytes) else OnePass(role, cfg, s, bytes)
  }

  lemma ActIsOnePass(role: Role, cfg: Config, s: Session, bytes: seq<byte>, a: Act)
    requires PassToCap(role, cfg, s, bytes)
    ensures PassToCap(role, cfg, Do(role, cfg, s, a), bytes + TakenBy(s, a))
  {
    assert bytes + [] == bytes && s.log + [] == s.log;
    if a.Receive? && Reading(s) {
      ReceiveIsOnePass(role, cfg, s, bytes, a.chunk, a.room);
    } else if a.Overflow? && Reading(s) {
      OverflowIsOnePass(role, cfg, s, bytes, a.chunk);
    } else {
      assert s.log + Opt(s.pending) + [] == s.log + Opt(s.pending);
    }
  }

  // For every way the stream is cut into chunks, and every schedule of pauses and resumptions,
  // a session is one pass over the bytes it took; and when it is closed at the receive cap, it is
  // one pass up to there, with a CLOSE behind it.
  lemma {:induction false} SessionIsOnePass(role: Role, cfg: Config, early: seq<byte>, acts: seq<Act>)
    ensures PassToCap(role, cfg, DoAll(role, cfg, Opened(early), acts), early + Taken(role, cfg, Opened(early), acts))
  {
    var s := Opened(early);
    if acts == [] {
      assert early + [] == early;
      AfterAfter(Decode(role, cfg, OPEN, early), [], [], []);
    } else {
      var before, a := acts[..|acts| - 1], acts[|acts| - 1];
      var t := DoAll(role, cfg, s, before);
      SessionIsOnePass(role, cfg, early, before);
      ActIsOnePass(role, cfg, t, early + Taken(role, cfg, s, before), a);
      Assoc(early, Taken(role, cfg, s, before), TakenBy(t, a));
    }
  }

  // The session has nothing left to do, and was not cut off at the receive cap (where that is reached
  // depends on the bursts the bytes come in).
  predicate AtRest(role: Role, cfg: Config, s: Session) {
    !s.capped && s.pending == None && Step(role, cfg, s.st, s.rx) == Wait
  }

  // Two sessions that took the same bytes, behind the handshake or later, and have nothing left to do
  // agree on everything: messages, replies, fragment state and unread bytes.
  lemma ScheduleIndependence(role: Role, cfg: Config, early1: seq<byte>, acts1: seq<Act>, early2: seq<byte>,
                             acts2: seq<Act>)
    requires early1 + Taken(role, cfg, Opened(early1), acts1) == early2 + Taken(role, cfg, Opened(early2), acts2)
    requires AtRest(role, cfg, DoAll(role, cfg, Opened(early1), acts1))
    requires AtRest(role, cfg, DoAll(role, cfg, Opened(early2), acts2))
    ensures DoAll(role, cfg, Opened(early1), acts1) == DoAll(role, cfg, Opened(early2), acts2)
  {
    SessionIsOnePass(role, cfg, early1, acts1);
    SessionIsOnePass(role, cfg, early2, acts2);
    var s1, s2 := DoAll(role, cfg, Opened(early1), acts1), DoAll(role, cfg, Opened(early2), acts2);
    assert s1.log + [] + [] == s1.log && s2.log + [] + [] == s2.log;
  }

  // ---------------------------------------------------------------- what a new message forgets

  // Between messages the opcode, the text and the UTF-8 state of the last one do not matter.
  predicate Alike(s: State, t: State) {
    && s.closing == t.closing
    && (s.closing || (s.fragmenting == t.fragmenting && (s.fragmenting ==> s == t)))
  }

  ghost predicate AlikeMoves(m: Move, n: Move) {
    && m.Go? == n.Go?
    && (m.Go? ==> m.used == n.used && m.events == n.events && Alike(m.st, n.st))
  }

  lemma StepAlike(role: Role, cfg: Config, s: State, t: State, rx: seq<byte>)
    requires Alike(s, t)
    ensures AlikeMoves(Step(role, cfg, s, rx), Step(role, cfg, t, rx))
  {
    WholeIsLegal(role, cfg, rx);
  }

  lemma {:induction false} DecodeAlike(role: Role, cfg: Config, s: State, t: State, rx: seq<byte>)
    requires Alike(s, t)
    ensures Decode(role, cfg, s, rx).events == Decode(role, cfg, t, rx).events
    decreases |rx|
  {
    StepAlike(role, cfg, s, t, rx);
    var m, n := Step(role, cfg, s, rx), Step(role, cfg, t, rx);
    if m.Go? && !m.st.closing {
      DecodeAlike(role, cfg, m.st, n.st, rx[m.used..]);
    }
  }

  lemma {:induction false} PumpAlike(role: Role, cfg: Config, s: State, t: State, rx: seq<byte>, room: nat)
    requires Alike(s, t)
    ensures var o, q := Pump(role, cfg, s, rx, room), Pump(role, cfg, t, rx, room);
            o.rx == q.rx && o.events == q.events && o.pending == q.pending && Alike(o.st, q.st)
    decreases |rx|
  {
    StepAlike(role, cfg, s, t, rx);
    var m, n := Step(role, cfg, s, rx), Step(role, cfg, t, rx);
    if m.Go? && !m.st.closing {
      var publishes := m.events != [] && m.events[0].Publish?;
      if !(publishes && room == 0) {
        PumpAlike(role, cfg, m.st, n.st, rx[m.used..], if publishes then room - 1 else room);
      }
    }
  }

  // ---------------------------------------------------------------- what is published

  // What the state says about the fragments collected so far.
  ghost predicate Sound(cfg: Config, st: State) {
    st.fragmenting ==>
      && (st.opcode == TEXT || st.opcode == BIN)
      && |st.acc| <= cfg.maxMessage
      && (st.opcode == TEXT ==> Utf8.Feed(Utf8.START, st.acc) == Utf8.Fed(true, st.utf8))
  }

  ghost predicate SoundMessage(cfg: Config, e: Event) {
    e.Publish? ==>
      && (e.opcode == TEXT || e.opcode == BIN)
      && |e.payload| <= cfg.maxMessage
      && (e.opcode == TEXT ==> Utf8.WellFormed(e.payload))
  }

  lemma OnFrameIsSound(role: Role, cfg: Config, st: State, f: Frame)
    requires Sound(cfg, st) && !st.closing && LegalOpcode(f.opcode)
    ensures var o := OnFrame(role, cfg, st, f);
            && (!o.st.closing ==> Sound(cfg, o.st))
            && (forall e :: e in o.events ==> SoundMessage(cfg, e))
  {
    if !IsControl(f.opcode) {
      var st1 := if f.opcode == CONT then st else State(true, f.opcode, [], Utf8.START, false);
      Utf8.FeedConcat(Utf8.START, st1.acc, f.payload);
      Utf8.AcceptsIffWellFormed(st1.acc + f.payload);
    }
  }

  // Whatever bytes arrive, a published message is TEXT or BIN, at most maxMessage long, and
  // well-formed UTF-8 when it is TEXT.
  lemma {:induction false} PublishedIsSound(role: Role, cfg: Config, st: State, rx: seq<byte>)
    requires Sound(cfg, st)
    ensures var r := Decode(role, cfg, st, rx);
            && (!r.st.closing ==> Sound(cfg, r.st))
            && forall e :: e in r.events ==> SoundMessage(cfg, e)
    decreases |rx|
  {
    if Step(role, cfg, st, rx).Go? {
      var m := Step(role, cfg, st, rx);
      WholeIsLegal(role, cfg, rx);
      var x := AtFront(role, cfg, rx);
      if x.Whole? {
        OnFrameIsSound(role, cfg, st, x.frame);
      }
      if !m.st.closing {
        PublishedIsSound(role, cfg, m.st, rx[m.used..]);
      }
    }
  }

  // A TEXT fragment closes the connection exactly when the text so far cannot become, or at the
  // final fragment is not, well-formed UTF-8.
  lemma TextIsRefusedExactlyWhenHopeless(role: Role, cfg: Config, st: State, f: Frame)
    requires Sound(cfg, st) && !st.closing
    requires (f.opcode == TEXT && !st.fragmenting) || (f.opcode == CONT && st.fragmenting && st.opcode == TEXT)
    requires (if f.opcode == TEXT then 0 else |st.acc|) + |f.payload| <= cfg.maxMessage
    ensures var text := (if f.opcode == TEXT then [] else st.acc) + f.payload;
            var o := OnFrame(role, cfg, st, f);
            && (o.st.closing <==>
                !(if f.fin then Utf8.WellFormed(text) else exists more: seq<byte> :: Utf8.WellFormed(text + more)))
            && o.events == (if o.st.closing then [SentClose(CloseBody(1007))]
                            else if f.fin then [Publish(TEXT, text)] else [])
  {
    var acc := if f.opcode == TEXT then [] else st.acc;
    Utf8.FeedConcat(Utf8.START, acc, f.payload);
    Utf8.AcceptsIffWellFormed(acc + f.payload);
    Utf8.FailsAsEarlyAsPossible(acc + f.payload);
  }

  // ---------------------------------------------------------------- closing

  function CloseCount(es: seq<Event>): nat {
    if es == [] then 0 else (if es[0].SentClose? then 1 else 0) + CloseCount(es[1..])
  }

  lemma {:induction false} CloseCountConcat(a: seq<Event>, b: seq<Event>)
    ensures CloseCount(a + b) == CloseCount(a) + CloseCount(b)
  {
    if a == [] {
      assert a + b == b;
    } else {
      CloseCountConcat(a[1..], b);
      assert (a + b)[0] == a[0] && (a + b)[1..] == a[1..] + b;
    }
  }

  lemma OnFrameCloses(role: Role, cfg: Config, st: State, f: Frame)
    requires !st.closing
    ensures var o := OnFrame(role, cfg, st, f);
            (o.st.closing ==> |o.events| == 1 && o.events[0].SentClose?) &&
            (!o.st.closing ==> CloseCount(o.events) == 0)
  {
  }

  lemma StepCloses(role: Role, cfg: Config, st: State, rx: seq<byte>)
    requires !st.closing && Step(role, cfg, st, rx).Go?
    ensures var m := Step(role, cfg, st, rx);
            && (m.st.closing ==> |m.events| == 1 && m.events[0].SentClose?)
            && CloseCount(m.events) == (if m.st.closing then 1 else 0)
  {
    var m, x := Step(role, cfg, st, rx), AtFront(role, cfg, rx);
    if x.Whole? {
      OnFrameCloses(role, cfg, st, x.frame);
    }
    assert m.st.closing ==> m.events[1..] == [];
  }

  // Over any run at most one CLOSE is sent, exactly when the connection starts closing, and
  // nothing is sent or published after it (section 5.5.1 of RFC 6455).
  lemma {:induction false} OneCloseAndLast(role: Role, cfg: Config, st: State, rx: seq<byte>)
    requires !st.closing
    ensures var r := Decode(role, cfg, st, rx);
            && CloseCount(r.events) == (if r.st.closing then 1 else 0)
            && (r.st.closing ==> r.events != [] && r.events[|r.events| - 1].SentClose?)
    decreases |rx|
  {
    var m := Step(role, cfg, st, rx);
    if m.Go? {
      StepCloses(role, cfg, st, rx);
      if m.st.closing {
      } else {
        OneCloseAndLast(role, cfg, m.st, rx[m.used..]);
        CloseCountConcat(m.events, Decode(role, cfg, m.st, rx[m.used..]).events);
      }
    }
  }

  lemma {:induction false} PendingIsMessage(role: Role, cfg: Config, early: seq<byte>, acts: seq<Act>)
    ensures var s := DoAll(role, cfg, Opened(early), acts);
            s.pending.Some? ==> s.pending.value.Publish? && !s.st.closing
  {
    if acts != [] {
      var before, a := acts[..|acts| - 1], acts[|acts| - 1];
      PendingIsMessage(role, cfg, early, before);
      var s := DoAll(role, cfg, Opened(early), before);
      if a.Receive? {
        PumpPending(role, cfg, s.st, s.rx + a.chunk, a.room);
      }
    }
  }

  ghost predicate ClosedOnce(st: State, log: seq<Event>) {
    && CloseCount(log) == (if st.closing then 1 else 0)
    && (st.closing ==> log != [] && log[|log| - 1].SentClose?)
  }

  // A pass that a full queue may stop closes at most once too.
  lemma PumpClosesOnce(role: Role, cfg: Config, st: State, rx: seq<byte>, room: nat)
    requires !st.closing
    ensures var o := Pump(role, cfg, st, rx, room); ClosedOnce(o.st, o.events)
  {
    var o := Pump(role, cfg, st, rx, room);
    PumpIsPartOfDecode(role, cfg, st, rx, room);
    OneCloseAndLast(role, cfg, st, rx);
    var r := Decode(role, cfg, o.st, o.rx);
    CloseCountConcat(o.events + Opt(o.pending), r.events);
    CloseCountConcat(o.events, Opt(o.pending));
    if o.st.closing {
      assert r.events == [] && o.pending == None;
      assert o.events + [] + [] == o.events;
    } else {
      OneCloseAndLast(role, cfg, o.st, o.rx);
      assert o.pending.Some? ==> Opt(o.pending)[1..] == [];
    }
  }

  // The same over every session, however its bytes came, however often it was paused, and whether or
  // not it reached the receive cap: one CLOSE at most, sent when closing starts, and nothing after it.
  lemma {:induction false} SessionClosesOnce(role: Role, cfg: Config, early: seq<byte>, acts: seq<Act>)
    ensures var s := DoAll(role, cfg, Opened(early), acts); ClosedOnce(s.st, s.log)
  {
    if acts != [] {
      var before, a := acts[..|acts| - 1], acts[|acts| - 1];
      SessionClosesOnce(role, cfg, early, before);
      PendingIsMessage(role, cfg, early, before);
      ActClosesOnce(role, cfg, DoAll(role, cfg, Opened(early), before), a);
    }
  }

  lemma ActClosesOnce(role: Role, cfg: Config, s: Session, a: Act)
    requires ClosedOnce(s.st, s.log) && (s.pending.Some? ==> s.pending.value.Publish? && !s.st.closing)
    ensures var t := Do(role, cfg, s, a); ClosedOnce(t.st, t.log)
  {
    match a {
      case Release =>
        CloseCountConcat(s.log, Opt(s.pending));
        if s.pending.Some? {
          assert Opt(s.pending)[1..] == [];
        } else {
          assert s.log + [] == s.log;
        }
      case Overflow(_) =>
        var last := [SentClose(CloseBody(1009))];
        CloseCountConcat(s.log, last);
        assert last[1..] == [];
      case Receive(chunk, room) =>
        if Reading(s) {
          PumpClosesOnce(role, cfg, s.st, s.rx + chunk, room);
          CloseCountConcat(s.log, Pump(role, cfg, s.st, s.rx + chunk, room).events);
        }
    }
  }
}
