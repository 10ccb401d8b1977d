// What the assembler does to whole frame sequences: the wire decodes to the frames sent, worker
// and reactor agree, and fragmenting a message is undone.
module Streams {
  import opened Bytes
  import opened Frames
  import opened Assembler
  import opened Messages
  import Utf8

  // ---------------------------------------------------------------- frames in, events out

  datatype Run = Run(st: State, events: seq<Event>)
  {
    function After(earlier: seq<Event>): Run {
      this.(events := earlier + events)
    }
  }

  // The assembler on a sequence of frames; it stops at the frame that closes the connection.
  function Assemble(role: Role, cfg: Config, st: State, fs: seq<Frame>): Run
    decreases |fs|
  {
    if fs == [] || st.closing then Run(st, [])
    else
      var o := OnFrame(role, cfg, st, fs[0]);
      Assemble(role, cfg, o.st, fs[1..]).After(o.events)
  }

  lemma {:induction false} AssembleConcat(role: Role, cfg: Config, st: State, a: seq<Frame>, b: seq<Frame>)
    ensures var r := Assemble(role, cfg, st, a);
            Assemble(role, cfg, st, a + b) == Assemble(role, cfg, r.st, b).After(r.events)
    decreases |a|
  {
    if a == [] {
      assert a + b == b;
      var q := Assemble(role, cfg, st, b);
      assert [] + q.events == q.events;
    } else if !st.closing {
      var o := OnFrame(role, cfg, st, a[0]);
      assert (a + b)[0] == a[0] && (a + b)[1..] == a[1..] + b;
      AssembleConcat(role, cfg, o.st, a[1..], b);
      var r := Assemble(role, cfg, o.st, a[1..]);
      var q := Assemble(role, cfg, r.st, b);
      assert o.events + (r.events + q.events) == o.events + r.events + q.events;
    }
  }

  // ---------------------------------------------------------------- the wire

  // A peer's frame together with its masking key; the empty key is the unmasked form.
  datatype Sent = Sent(frame: Frame, key: seq<byte>)

  ghost predicate Transmittable(role: Role, cfg: Config, x: Sent) {
    && x.frame.Legal()
    && LegalKey(x.key) && (x.key != [] <==> role.Server?)
    && |x.frame.payload| <= cfg.maxFrame
  }

  ghost predicate AllTransmittable(role: Role, cfg: Config, xs: seq<Sent>) {
    forall i :: 0 <= i < |xs| ==> Transmittable(role, cfg, xs[i])
  }

  ghost function WireAll(role: Role, cfg: Config, xs: seq<Sent>): seq<byte>
    requires AllTransmittable(role, cfg, xs)
  {
    if xs == [] then [] else Wire(xs[0].frame, xs[0].key) + WireAll(role, cfg, xs[1..])
  }

  function FramesOf(xs: seq<Sent>): (fs: seq<Frame>)
    ensures |fs| == |xs|
  {
    if xs == [] then [] else [xs[0].frame] + FramesOf(xs[1..])
  }

  lemma FrontOnWire(role: Role, cfg: Config, x: Sent, rest: seq<byte>)
    requires Transmittable(role, cfg, x)
    ensures AtFront(role, cfg, Wire(x.frame, x.key) + rest) == Whole(x.frame, |Wire(x.frame, x.key)|)
  {
    FrameRoundTrip(x.frame, x.key, rest);
  }

  lemma StepOnWire(role: Role, cfg: Config, st: State, x: Sent, rest: seq<byte>)
    requires Transmittable(role, cfg, x) && !st.closing
    ensures var w := Wire(x.frame, x.key);
            var o := OnFrame(role, cfg, st, x.frame);
            Step(role, cfg, st, w + rest) == Go(o.st, if o.consumed then |w| else 0, o.events)
  {
    FrontOnWire(role, cfg, x, rest);
  }

  // Bytes in, events out: decoding the wire form of a frame sequence, whatever keys mask it, is
  // assembling the frames.
  lemma {:induction false} DecodeOnWire(role: Role, cfg: Config, st: State, xs: seq<Sent>)
    requires AllTransmittable(role, cfg, xs)
    ensures var r := Decode(role, cfg, st, WireAll(role, cfg, xs));
            var q := Assemble(role, cfg, st, FramesOf(xs));
            r.st == q.st && r.events == q.events && (!r.st.closing ==> r.rest == [])
    decreases |xs|
  {
    if !st.closing && xs != [] {
      var w, rest := Wire(xs[0].frame, xs[0].key), WireAll(role, cfg, xs[1..]);
      StepOnWire(role, cfg, st, xs[0], rest);
      var o := OnFrame(role, cfg, st, xs[0].frame);
      assert FramesOf(xs)[1..] == FramesOf(xs[1..]);
      if o.st.closing {
        assert o.events + [] == o.events;
      } else {
        assert (w + rest)[|w|..] == rest;
        DecodeOnWire(role, cfg, o.st, xs[1..]);
      }
    }
  }

  // ---------------------------------------------------------------- worker and reactor agree

  // The CLOSE frame that ends a run of frames, if one does.
  function EndingClose(cfg: Config, st: State, fs: seq<Frame>): Option<Frame>
    decreases |fs|
  {
    if fs == [] || st.closing then None
    else if fs[0].opcode == CLOSE then Some(fs[0])
    else EndingClose(cfg, OnFrame(Server, cfg, st, fs[0]).st, fs[1..])
  }

  // A CLOSE frame that both sides answer alike: the reactor returns its body, the worker only its
  // code, and 1000 for an empty body.
  predicate AnsweredAlike(f: Frame) {
    |f.payload| == 1 || (|f.payload| == 2 && ValidCloseCode((f.payload[0] as int) * 256 + f.payload[1]))
  }

  lemma CloseAnswers(cfg: Config, st: State, f: Frame)
    requires !st.closing && f.opcode == CLOSE
    ensures OnFrame(Server, cfg, st, f).events == OnFrame(Client, cfg, st, f).events <==> AnsweredAlike(f)
  {
    var w, u := OnFrame(Server, cfg, st, f).events, OnFrame(Client, cfg, st, f).events;
    assert w == u <==> w[0] == u[0];
    if |f.payload| == 2 {
      assert f.payload[2..] == [] && f.payload == [f.payload[0], f.payload[1]];
    }
  }

  lemma OneFrameAgrees(cfg: Config, st: State, f: Frame, id: nat)
    requires !st.closing
    ensures var w, u := OnFrame(Server, cfg, st, f), OnFrame(Client, cfg, st, f);
            && w.st == u.st
            && MsgsOf(id, w.events) == MsgsOf(id, u.events)
            && (f.opcode == CLOSE ==> w.st.closing)
            && (w.events == u.events <==> f.opcode != CLOSE || AnsweredAlike(f))
  {
    var w, u := OnFrame(Server, cfg, st, f), OnFrame(Client, cfg, st, f);
    if f.opcode == CLOSE {
      CloseAnswers(cfg, st, f);
      assert w.events[1..] == [] && u.events[1..] == [];
    }
  }

  // The two sides run the same frames through the same states and publish the same messages. They
  // also send the same replies and the same close code, unless a CLOSE frame ends the connection
  // that they do not answer alike.
  lemma {:induction false} WorkerAndReactorAgree(cfg: Config, st: State, fs: seq<Frame>, id: nat)
    ensures var w, u := Assemble(Server, cfg, st, fs), Assemble(Client, cfg, st, fs);
            && w.st == u.st
            && MsgsOf(id, w.events) == MsgsOf(id, u.events)
            && (w.events == u.events <==> var x := EndingClose(cfg, st, fs); x.Some? ==> AnsweredAlike(x.value))
    decreases |fs|
  {
    if fs != [] && !st.closing {
      OneFrameAgrees(cfg, st, fs[0], id);
      var w, u := OnFrame(Server, cfg, st, fs[0]), OnFrame(Client, cfg, st, fs[0]);
      WorkerAndReactorAgree(cfg, w.st, fs[1..], id);
      var w', u' := Assemble(Server, cfg, w.st, fs[1..]).events, Assemble(Client, cfg, u.st, fs[1..]).events;
      MsgsConcat(id, w.events, w');
      MsgsConcat(id, u.events, u');
      if fs[0].opcode == CLOSE {
        assert w.events + [] == w.events && u.events + [] == u.events;
      } else {
        SameTail(w.events, w', u');
      }
    }
  }

  lemma SameTail(a: seq<Event>, b: seq<Event>, c: seq<Event>)
    ensures a + b == a + c <==> b == c
  {
    assert (a + b)[|a|..] == b && (a + c)[|a|..] == c;
  }

  // ---------------------------------------------------------------- fragmentation is undone

  // One fragment of a message, with the control frames the sender put before it.
  datatype Piece = Piece(before: seq<Frame>, payload: seq<byte>)

  // A message as sent: its opcode and its fragments, in order.
  datatype Plan = Plan(opcode: nat, pieces: seq<Piece>)

  ghost predicate Chatter(fs: seq<Frame>) {
    forall i :: 0 <= i < |fs| ==> (fs[i].opcode == PING || fs[i].opcode == PONG) && fs[i].Legal()
  }

  function Text(pieces: seq<Piece>): seq<byte> {
    if pieces == [] then [] else pieces[0].payload + Text(pieces[1..])
  }

  // The frames of a message: the first carries the opcode, the others continue, the last is final.
  function FragmentFrames(opcode: nat, pieces: seq<Piece>): seq<Frame> {
    if pieces == [] then []
    else pieces[0].before + [Frame(|pieces| == 1, opcode, pieces[0].payload)] + FragmentFrames(CONT, pieces[1..])
  }

  function PlanFrames(plans: seq<Plan>): seq<Frame> {
    if plans == [] then [] else FragmentFrames(plans[0].opcode, plans[0].pieces) + PlanFrames(plans[1..])
  }

  // The replies owed for a run of control frames.
  function Pongs(fs: seq<Frame>): seq<Event> {
    if fs == [] then []
    else (if fs[0].opcode == PING then [Pong(fs[0].payload)] else []) + Pongs(fs[1..])
  }

  function PiecePongs(pieces: seq<Piece>): seq<Event> {
    if pieces == [] then [] else Pongs(pieces[0].before) + PiecePongs(pieces[1..])
  }

  function PlanEvents(plans: seq<Plan>): seq<Event> {
    if plans == [] then []
    else PiecePongs(plans[0].pieces) + [Publish(plans[0].opcode, Text(plans[0].pieces))] + PlanEvents(plans[1..])
  }

  ghost predicate ChatterOnly(pieces: seq<Piece>) {
    forall i :: 0 <= i < |pieces| ==> Chatter(pieces[i].before)
  }

  ghost predicate Acceptable(cfg: Config, p: Plan) {
    && (p.opcode == TEXT || p.opcode == BIN)
    && p.pieces != [] && ChatterOnly(p.pieces)
    && |Text(p.pieces)| <= cfg.maxMessage
    && (p.opcode == TEXT ==> Utf8.WellFormed(Text(p.pieces)))
  }

  lemma {:induction false} AssembleChatter(role: Role, cfg: Config, st: State, fs: seq<Frame>)
    requires Chatter(fs) && !st.closing
    ensures Assemble(role, cfg, st, fs) == Run(st, Pongs(fs))
    decreases |fs|
  {
    if fs != [] {
      assert forall i :: 0 <= i < |fs| - 1 ==> fs[1..][i] == fs[i + 1];
      AssembleChatter(role, cfg, st, fs[1..]);
    }
  }

  // The opcode and the bytes collected so far of the message that a data frame belongs to.
  function MessageOpcode(st: State, opcode: nat): nat {
    if opcode == CONT then st.opcode else opcode
  }

  function Collected(st: State, opcode: nat): seq<byte> {
    if opcode == CONT then st.acc else []
  }

  ghost predicate Expected(cfg: Config, st: State, opcode: nat) {
    && !st.closing && Sound(cfg, st)
    && (if st.fragmenting then opcode == CONT else opcode == TEXT || opcode == BIN)
  }

  // The message that ends up collected is one the assembler may publish.
  ghost predicate Fits(cfg: Config, op: nat, text: seq<byte>) {
    |text| <= cfg.maxMessage && (op == TEXT ==> Utf8.WellFormed(text))
  }

  lemma GoodFragment(role: Role, cfg: Config, st: State, f: Frame, more: seq<byte>)
    requires Expected(cfg, st, f.opcode) && (f.fin ==> more == [])
    requires Fits(cfg, MessageOpcode(st, f.opcode), Collected(st, f.opcode) + f.payload + more)
    ensures var acc, op := Collected(st, f.opcode), MessageOpcode(st, f.opcode);
            var o := OnFrame(role, cfg, st, f);
            && !o.st.closing && o.st.fragmenting == !f.fin
            && o.events == (if f.fin then [Publish(op, acc + f.payload)] else [])
            && (!f.fin ==> Sound(cfg, o.st) && o.st.acc == acc + f.payload && o.st.opcode == op)
  {
    var acc, op := Collected(st, f.opcode), MessageOpcode(st, f.opcode);
    if op == TEXT {
      Utf8.AcceptsIffWellFormed(acc + f.payload + more);
      Utf8.FeedConcat(Utf8.START, acc + f.payload, more);
      Utf8.FeedConcat(Utf8.START, acc, f.payload);
      assert f.fin ==> acc + f.payload + more == acc + f.payload;
    }
  }

  lemma AssembleOne(role: Role, cfg: Config, st: State, f: Frame, rest: seq<Frame>)
    requires !st.closing
    ensures var o := OnFrame(role, cfg, st, f);
            Assemble(role, cfg, st, [f] + rest) == Assemble(role, cfg, o.st, rest).After(o.events)
  {
    assert ([f] + rest)[1..] == rest && ([f] + rest)[0] == f;
  }

  lemma AfterAfterRun(r: Run, a: seq<Event>, b: seq<Event>)
    ensures r.After(b).After(a) == r.After(a + b)
  {
    assert a + (b + r.events) == a + b + r.events;
  }

  lemma AssemblePiece(role: Role, cfg: Config, st: State, before: seq<Frame>, f: Frame, rest: seq<Frame>, o: Outcome)
    requires Chatter(before) && !st.closing && o == OnFrame(role, cfg, st, f)
    ensures Assemble(role, cfg, st, before + [f] + rest)
            == Assemble(role, cfg, o.st, rest).After(Pongs(before) + o.events)
  {
    AssembleChatter(role, cfg, st, before);
    AssembleConcat(role, cfg, st, before, [f] + rest);
    assert before + [f] + rest == before + ([f] + rest);
    AssembleOne(role, cfg, st, f, rest);
    AfterAfterRun(Assemble(role, cfg, o.st, rest), Pongs(before), o.events);
  }

  lemma TextSplit(acc: seq<byte>, pieces: seq<Piece>)
    requires pieces != []
    ensures acc + Text(pieces) == acc + pieces[0].payload + Text(pieces[1..])
  {
  }

  lemma TakePiece(role: Role, cfg: Config, st: State, opcode: nat, pieces: seq<Piece>)
    returns (st': State, es: seq<Event>)
    requires Expected(cfg, st, opcode) && pieces != [] && ChatterOnly(pieces)
    requires Fits(cfg, MessageOpcode(st, opcode), Collected(st, opcode) + Text(pieces))
    ensures Assemble(role, cfg, st, FragmentFrames(opcode, pieces))
         == Assemble(role, cfg, st', FragmentFrames(CONT, pieces[1..])).After(Pongs(pieces[0].before) + es)
    ensures !st'.closing && st'.fragmenting == (|pieces| > 1)
    ensures |pieces| == 1 ==> es == [Publish(MessageOpcode(st, opcode), Collected(st, opcode) + pieces[0].payload)]
    ensures |pieces| > 1 ==> es == [] && Sound(cfg, st') && st'.opcode == MessageOpcode(st, opcode)
    ensures |pieces| > 1 ==> st'.acc == Collected(st, opcode) + pieces[0].payload
  {
    var f := Frame(|pieces| == 1, opcode, pieces[0].payload);
    TextSplit(Collected(st, opcode), pieces);
    GoodFragment(role, cfg, st, f, Text(pieces[1..]));
    var o := OnFrame(role, cfg, st, f);
    AssemblePiece(role, cfg, st, pieces[0].before, f, FragmentFrames(CONT, pieces[1..]), o);
    st', es := o.st, o.events;
  }

  // The run has answered these PINGs and published this one message, and stands between messages.
  ghost predicate Completes(r: Run, pongs: seq<Event>, op: nat, text: seq<byte>) {
    !r.st.closing && !r.st.fragmenting && r.events == pongs + [Publish(op, text)]
  }

  lemma {:induction false} CompletesAfter(q: Run, earlier: seq<Event>, a: seq<Event>, b: seq<Event>, op: nat,
                                          text: seq<byte>)
    requires Completes(q, b, op, text) && earlier == a + []
    ensures Completes(q.After(earlier), a + b, op, text)
  {
  }

  // Collecting the remaining fragments of a message publishes all of it.
  lemma {:induction false} AssembleFragments(role: Role, cfg: Config, st: State, opcode: nat, pieces: seq<Piece>)
    requires Expected(cfg, st, opcode) && pieces != [] && ChatterOnly(pieces)
    requires Fits(cfg, MessageOpcode(st, opcode), Collected(st, opcode) + Text(pieces))
    ensures var r := Assemble(role, cfg, st, FragmentFrames(opcode, pieces));
            Completes(r, PiecePongs(pieces), MessageOpcode(st, opcode), Collected(st, opcode) + Text(pieces))
    decreases |pieces|
  {
    var st', es := TakePiece(role, cfg, st, opcode, pieces);
    TextSplit(Collected(st, opcode), pieces);
    if |pieces| == 1 {
      assert FragmentFrames(CONT, pieces[1..]) == [];
      assert PiecePongs(pieces) == Pongs(pieces[0].before);
      assert Collected(st, opcode) + Text(pieces) == Collected(st, opcode) + pieces[0].payload;
    } else {
      AssembleFragments(role, cfg, st', CONT, pieces[1..]);
      var q := Assemble(role, cfg, st', FragmentFrames(CONT, pieces[1..]));
      CompletesAfter(q, Pongs(pieces[0].before) + es, Pongs(pieces[0].before), PiecePongs(pieces[1..]),
                     MessageOpcode(st, opcode), Collected(st, opcode) + Text(pieces));
    }
  }

  // However messages are fragmented and interleaved with PINGs and PONGs, the assembler publishes
  // exactly those messages, in order, answers exactly the PINGs, and does not close.
  lemma {:induction false} FragmentationIsUndone(role: Role, cfg: Config, st: State, plans: seq<Plan>)
    requires AllAcceptable(cfg, plans) && !st.closing && !st.fragmenting
    ensures var r := Assemble(role, cfg, st, PlanFrames(plans));
            !r.st.closing && !r.st.fragmenting && r.events == PlanEvents(plans)
    decreases |plans|
  {
    if plans != [] {
      var p := plans[0];
      assert [] + Text(p.pieces) == Text(p.pieces);
      AssembleFragments(role, cfg, st, p.opcode, p.pieces);
      var r := Assemble(role, cfg, st, FragmentFrames(p.opcode, p.pieces));
      AssembleConcat(role, cfg, st, FragmentFrames(p.opcode, p.pieces), PlanFrames(plans[1..]));
      FragmentationIsUndone(role, cfg, r.st, plans[1..]);
    }
  }

  // ---------------------------------------------------------------- and nothing else is accepted

  ghost predicate AllAcceptable(cfg: Config, plans: seq<Plan>) {
    forall i :: 0 <= i < |plans| ==> Acceptable(cfg, plans[i])
  }

  // A control frame put in front of a message belongs to its first fragment.
  function Prefixed(f: Frame, pieces: seq<Piece>): seq<Piece>
    requires pieces != []
  {
    [Piece([f] + pieces[0].before, pieces[0].payload)] + pieces[1..]
  }

  lemma PrefixedFrames(f: Frame, opcode: nat, pieces: seq<Piece>)
    requires pieces != [] && ChatterOnly(pieces) && Chatter([f])
    ensures FragmentFrames(opcode, Prefixed(f, pieces)) == [f] + FragmentFrames(opcode, pieces)
    ensures Text(Prefixed(f, pieces)) == Text(pieces)
    ensures ChatterOnly(Prefixed(f, pieces))
  {
    var q := Prefixed(f, pieces);
    assert q[1..] == pieces[1..];
    var last := [Frame(|pieces| == 1, opcode, pieces[0].payload)];
    assert q[0].before + last + FragmentFrames(CONT, pieces[1..])
        == [f] + (pieces[0].before + last + FragmentFrames(CONT, pieces[1..]));
  }

  // How an accepted run of frames breaks up: the fragments that finish the message in progress,
  // whole messages, and control frames after the last one.
  datatype Reading = Reading(tail: seq<Piece>, plans: seq<Plan>, trailing: seq<Frame>)
  {
    function Frames(): seq<Frame> {
      FragmentFrames(CONT, tail) + PlanFrames(plans) + trailing
    }
  }

  ghost predicate Explains(cfg: Config, st: State, fs: seq<Frame>, x: Reading) {
    && (st.fragmenting <==> x.tail != [])
    && fs == x.Frames()
    && ChatterOnly(x.tail) && AllAcceptable(cfg, x.plans) && Chatter(x.trailing)
    && (st.fragmenting ==> Fits(cfg, st.opcode, st.acc + Text(x.tail)))
  }

  lemma ConsAssoc(f: Frame, a: seq<Frame>, b: seq<Frame>, c: seq<Frame>)
    ensures [f] + (a + b + c) == ([f] + a) + b + c
    ensures a == [] ==> [f] + (a + b + c) == a + ([f] + b) + c
    ensures a == [] && b == [] ==> [f] + (a + b + c) == a + b + ([f] + c)
  {
  }

  lemma ExplainControlInMessage(cfg: Config, st: State, f: Frame, fs: seq<Frame>, y: Reading) returns (x: Reading)
    requires Chatter([f]) && Explains(cfg, st, fs, y) && y.tail != []
    ensures Explains(cfg, st, [f] + fs, x)
  {
    x := y.(tail := Prefixed(f, y.tail));
    PrefixedFrames(f, CONT, y.tail);
    ConsAssoc(f, FragmentFrames(CONT, y.tail), PlanFrames(y.plans), y.trailing);
  }

  lemma PrefixedPlan(cfg: Config, f: Frame, plans: seq<Plan>) returns (plans': seq<Plan>)
    requires Chatter([f]) && AllAcceptable(cfg, plans) && plans != []
    ensures AllAcceptable(cfg, plans') && PlanFrames(plans') == [f] + PlanFrames(plans)
  {
    var p := plans[0];
    PrefixedFrames(f, p.opcode, p.pieces);
    var p' := Plan(p.opcode, Prefixed(f, p.pieces));
    assert Acceptable(cfg, p');
    plans' := [p'] + plans[1..];
    assert plans'[1..] == plans[1..];
  }

  lemma ExplainControl(cfg: Config, st: State, f: Frame, fs: seq<Frame>, y: Reading) returns (x: Reading)
    requires Chatter([f]) && Explains(cfg, st, fs, y)
    ensures Explains(cfg, st, [f] + fs, x)
  {
    if y.tail != [] {
      x := ExplainControlInMessage(cfg, st, f, fs, y);
    } else {
      ConsAssoc(f, [], PlanFrames(y.plans), y.trailing);
      assert FragmentFrames(CONT, y.tail) == [];
      if y.plans != [] {
        var plans' := PrefixedPlan(cfg, f, y.plans);
        x := Reading([], plans', y.trailing);
      } else {
        x := Reading([], [], [f] + y.trailing);
        assert PlanFrames(y.plans) == [];
      }
    }
  }

  // The message a data frame leaves open or publishes, and what is required of it.
  lemma OnDataKeeps(role: Role, cfg: Config, st: State, f: Frame)
    requires !st.closing && Sound(cfg, st) && LegalOpcode(f.opcode) && !IsControl(f.opcode)
    requires !OnFrame(role, cfg, st, f).st.closing
    ensures var o := OnFrame(role, cfg, st, f);
            && Expected(cfg, st, f.opcode) && Sound(cfg, o.st)
            && o.st.fragmenting == !f.fin
            && (!f.fin ==>
                  o.st.opcode == MessageOpcode(st, f.opcode) && o.st.acc == Collected(st, f.opcode) + f.payload)
            && (f.fin ==> Fits(cfg, MessageOpcode(st, f.opcode), Collected(st, f.opcode) + f.payload))
  {
    OnFrameIsSound(role, cfg, st, f);
    Utf8.FeedConcat(Utf8.START, Collected(st, f.opcode), f.payload);
    Utf8.AcceptsIffWellFormed(Collected(st, f.opcode) + f.payload);
  }

  // A fragment put in front of the fragments that follow it.
  lemma FrontPiece(opcode: nat, f: Frame, tail: seq<Piece>) returns (pieces: seq<Piece>)
    requires f.opcode == opcode && (f.fin <==> tail == []) && ChatterOnly(tail)
    ensures pieces != [] && ChatterOnly(pieces)
    ensures FragmentFrames(opcode, pieces) == [f] + FragmentFrames(CONT, tail)
    ensures Text(pieces) == f.payload + Text(tail)
  {
    pieces := [Piece([], f.payload)] + tail;
    assert pieces[1..] == tail;
    assert [] + [f] + FragmentFrames(CONT, tail) == [f] + FragmentFrames(CONT, tail);
  }

  lemma FitsTail(cfg: Config, op: nat, acc: seq<byte>, p: seq<byte>, tail: seq<Piece>)
    requires if tail == [] then Fits(cfg, op, acc + p) else Fits(cfg, op, acc + p + Text(tail))
    ensures Fits(cfg, op, acc + (p + Text(tail)))
  {
    assert acc + (p + Text(tail)) == acc + p + Text(tail);
    assert tail == [] ==> acc + (p + Text(tail)) == acc + p;
  }

  lemma ExplainCont(cfg: Config, st: State, f: Frame, st': State, fs: seq<Frame>, y: Reading) returns (x: Reading)
    requires st.fragmenting && f.opcode == CONT && Explains(cfg, st', fs, y)
    requires st'.fragmenting == !f.fin
    requires !f.fin ==> st'.opcode == st.opcode && st'.acc == st.acc + f.payload
    requires f.fin ==> Fits(cfg, st.opcode, st.acc + f.payload)
    ensures Explains(cfg, st, [f] + fs, x)
  {
    var pieces := FrontPiece(CONT, f, y.tail);
    x := y.(tail := pieces);
    FitsTail(cfg, st.opcode, st.acc, f.payload, y.tail);
    ConsAssoc(f, FragmentFrames(CONT, y.tail), PlanFrames(y.plans), y.trailing);
  }

  lemma ExplainFirst(cfg: Config, st: State, f: Frame, st': State, fs: seq<Frame>, y: Reading) returns (x: Reading)
    requires !st.fragmenting && (f.opcode == TEXT || f.opcode == BIN) && Explains(cfg, st', fs, y)
    requires st'.fragmenting == !f.fin
    requires !f.fin ==> st'.opcode == f.opcode && st'.acc == f.payload
    requires f.fin ==> Fits(cfg, f.opcode, f.payload)
    ensures Explains(cfg, st, [f] + fs, x)
  {
    var pieces := FrontPiece(f.opcode, f, y.tail);
    var plan := Plan(f.opcode, pieces);
    assert Acceptable(cfg, plan) by {
      assert [] + f.payload == f.payload;
      FitsTail(cfg, f.opcode, [], f.payload, y.tail);
      assert [] + (f.payload + Text(y.tail)) == Text(pieces);
    }
    x := Reading([], [plan] + y.plans, y.trailing);
    ExplainFirstFrames(f, plan, y, x);
  }

  lemma ExplainFirstFrames(f: Frame, plan: Plan, y: Reading, x: Reading)
    requires FragmentFrames(plan.opcode, plan.pieces) == [f] + FragmentFrames(CONT, y.tail)
    requires x == Reading([], [plan] + y.plans, y.trailing)
    ensures x.Frames() == [f] + y.Frames()
  {
    assert x.plans[1..] == y.plans && x.plans[0] == plan;
    assert PlanFrames(x.plans) == [f] + FragmentFrames(CONT, y.tail) + PlanFrames(y.plans);
    ConsAssoc(f, FragmentFrames(CONT, y.tail), PlanFrames(y.plans), y.trailing);
    assert FragmentFrames(CONT, x.tail) == [];
  }

  lemma ClosedStays(role: Role, cfg: Config, st: State, fs: seq<Frame>)
    ensures st.closing ==> Assemble(role, cfg, st, fs) == Run(st, [])
  {
  }

  lemma {:induction false} Explain(role: Role, cfg: Config, st: State, fs: seq<Frame>) returns (x: Reading)
    requires !st.closing && Sound(cfg, st) && forall i :: 0 <= i < |fs| ==> fs[i].Legal()
    requires var r := Assemble(role, cfg, st, fs); !r.st.closing && !r.st.fragmenting
    ensures Explains(cfg, st, fs, x)
    decreases |fs|
  {
    if fs == [] {
      x := Reading([], [], []);
    } else {
      var f := fs[0];
      var o := OnFrame(role, cfg, st, f);
      ClosedStays(role, cfg, o.st, fs[1..]);
      assert fs == [f] + fs[1..];
      if IsControl(f.opcode) {
        var y := Explain(role, cfg, st, fs[1..]);
        x := ExplainControl(cfg, st, f, fs[1..], y);
      } else {
        OnDataKeeps(role, cfg, st, f);
        var y := Explain(role, cfg, o.st, fs[1..]);
        if f.opcode == CONT {
          x := ExplainCont(cfg, st, f, o.st, fs[1..], y);
        } else {
          assert [] + f.payload == f.payload;
          x := ExplainFirst(cfg, st, f, o.st, fs[1..], y);
        }
      }
    }
  }

  ghost predicate Fragmentation(cfg: Config, plans: seq<Plan>, trailing: seq<Frame>, fs: seq<Frame>) {
    AllAcceptable(cfg, plans) && Chatter(trailing) && fs == PlanFrames(plans) + trailing
  }

  // The assembler takes a frame sequence without closing, and ends between two messages, exactly
  // when the sequence is a fragmentation of acceptable messages interleaved with control frames;
  // and then those messages are what it publishes.
  lemma {:induction false} AcceptsExactlyFragmentations(role: Role, cfg: Config, fs: seq<Frame>)
    requires forall i :: 0 <= i < |fs| ==> fs[i].Legal()
    ensures (var r := Assemble(role, cfg, OPEN, fs); !r.st.closing && !r.st.fragmenting)
       <==> exists plans, trailing :: Fragmentation(cfg, plans, trailing, fs)
    ensures forall plans, trailing :: Fragmentation(cfg, plans, trailing, fs) ==>
              Assemble(role, cfg, OPEN, fs).events == PlanEvents(plans) + Pongs(trailing)
  {
    var r := Assemble(role, cfg, OPEN, fs);
    if !r.st.closing && !r.st.fragmenting {
      var x := Explain(role, cfg, OPEN, fs);
      assert fs == [] + PlanFrames(x.plans) + x.trailing;
      assert Fragmentation(cfg, x.plans, x.trailing, fs);
    }
    forall plans, trailing | Fragmentation(cfg, plans, trailing, fs)
      ensures r.events == PlanEvents(plans) + Pongs(trailing) && !r.st.closing && !r.st.fragmenting
    {
      FragmentationIsUndone(role, cfg, OPEN, plans);
      AssembleConcat(role, cfg, OPEN, PlanFrames(plans), trailing);
      AssembleChatter(role, cfg, Assemble(role, cfg, OPEN, PlanFrames(plans)).st, trailing);
    }
  }
}
