// From single calls to whole connections: what the worker's and the reactor's methods do to a
// connection, call after call, with other threads at the data queue in between, is one session of
// the assembler.
module Sessions {
  import opened Bytes
  import opened Frames
  import opened Assembler
  import opened Messages
  import opened Turns

  // ---------------------------------------------------------------- one call

  function AsEvent(m: Msg): Event {
    Publish(m.opcode, m.payload)
  }

  // The session that a connection is in at one moment, its log begun anew.
  function Begin(a: Snap): Session {
    Session(a.st, a.rx, [], if a.pending.Some? then Some(AsEvent(a.pending.value)) else None, false)
  }

  ghost predicate Own(id: nat, a: Snap) {
    && (a.pending.Some? ==> a.pending.value.srcId == id && !a.st.closing)
  }

  // Every pass had exactly the room that the data queue left it.
  ghost predicate RoomsRight(role: Role, cfg: Config, id: nat, high: nat, a: Snap, acts: seq<Act>) {
    acts == [] ||
    var before, last := acts[..|acts| - 1], acts[|acts| - 1];
    && RoomsRight(role, cfg, id, high, a, before)
    && (last.Receive? ==> last.room == Room(|a.queue| + |MsgsOf(id, DoAll(role, cfg, Begin(a), before).log)|, high))
  }

  // Between a and b the acts were carried out: what the session logs went to the data queue and, as
  // the replies rs, to the wire. What a closing connection holds unread is nobody's concern.
  ghost predicate Enacted(role: Role, cfg: Config, id: nat, high: nat, a: Snap, b: Snap, acts: seq<Act>,
                          rs: seq<Reply>) {
    var s := DoAll(role, cfg, Begin(a), acts);
    && b.st == s.st && (s.st.closing || b.rx == s.rx)
    && b.pending == AsPending(id, s.pending) && (s.pending.Some? ==> s.pending.value.Publish? && !s.st.closing)
    && Accounts(id, a, b, s.log, rs)
    && RoomsRight(role, cfg, id, high, a, acts)
  }

  lemma {:induction false} DoOne(role: Role, cfg: Config, id: nat, high: nat, a: Snap, act: Act)
    ensures DoAll(role, cfg, Begin(a), [act]) == Do(role, cfg, Begin(a), act)
    ensures Taken(role, cfg, Begin(a), [act]) == TakenBy(Begin(a), act)
    ensures RoomsRight(role, cfg, id, high, a, [act]) <==> (act.Receive? ==> act.room == Room(|a.queue|, high))
  {
    assert [act][..0] == [];
    assert DoAll(role, cfg, Begin(a), []) == Begin(a);
    assert Taken(role, cfg, Begin(a), []) == [];
    assert [] + TakenBy(Begin(a), act) == TakenBy(Begin(a), act);
    assert MsgsOf(id, []) == [];
  }

  // An act whose session is known.
  lemma {:induction false} EnactedBy(role: Role, cfg: Config, id: nat, high: nat, a: Snap, act: Act, s: Session,
                                     b: Snap, rs: seq<Reply>)
    requires DoAll(role, cfg, Begin(a), [act]) == s && RoomsRight(role, cfg, id, high, a, [act])
    requires b.st == s.st && (s.st.closing || b.rx == s.rx)
    requires b.pending == AsPending(id, s.pending) && (s.pending.Some? ==> s.pending.value.Publish? && !s.st.closing)
    requires Accounts(id, a, b, s.log, rs)
    ensures Enacted(role, cfg, id, high, a, b, [act], rs)
  {
  }

  lemma {:induction false} ReceiveOnce(role: Role, cfg: Config, a: Snap, chunk: seq<byte>, room: nat, o: Stop)
    requires a.pending == None && !a.st.closing && o == Pump(role, cfg, a.st, a.rx + chunk, room)
    ensures Do(role, cfg, Begin(a), Receive(chunk, room)) == Session(o.st, o.rx, o.events, o.pending, false)
  {
    assert [] + o.events == o.events;
  }

  // A finished pass over what was unread and a new chunk is a Receive.
  lemma {:induction false} PassIsReceive(role: Role, cfg: Config, id: nat, high: nat, a: Snap, chunk: seq<byte>,
                                         b: Snap, rs: seq<Reply>)
    requires a.pending == None && !a.st.closing
    requires Finished(role, cfg, id, high, a.(rx := a.rx + chunk), b, rs)
    ensures Enacted(role, cfg, id, high, a, b, [Receive(chunk, Room(|a.queue|, high))], rs)
  {
    var room := Room(|a.queue|, high);
    var o := Pump(role, cfg, a.st, a.rx + chunk, room);
    ReceiveOnce(role, cfg, a, chunk, room, o);
    DoOne(role, cfg, id, high, a, Receive(chunk, room));
    PumpPending(role, cfg, a.st, a.rx + chunk, room);
    EnactedBy(role, cfg, id, high, a, Receive(chunk, room), Session(o.st, o.rx, o.events, o.pending, false), b, rs);
  }

  lemma {:induction false} ReleaseOnce(role: Role, cfg: Config, id: nat, a: Snap)
    requires Own(id, a) && a.pending.Some?
    ensures var e := AsEvent(a.pending.value);
            && Do(role, cfg, Begin(a), Release) == Session(a.st, a.rx, [e], None, false)
            && MsgsOf(id, [e]) == [a.pending.value] && RepliesOf([e]) == []
  {
    var e := AsEvent(a.pending.value);
    assert [] + [e] == [e] && [e][1..] == [];
    assert MsgsOf(id, [e]) == [a.pending.value] + MsgsOf(id, []);
    assert RepliesOf([e]) == [] + RepliesOf([]);
  }

  // Pushing the waiting message is a Release.
  lemma {:induction false} PushIsRelease(role: Role, cfg: Config, id: nat, high: nat, a: Snap)
    requires Own(id, a) && a.pending.Some?
    ensures Enacted(role, cfg, id, high, a, a.(queue := a.queue + [a.pending.value], pending := None), [Release], [])
  {
    var b := a.(queue := a.queue + [a.pending.value], pending := None);
    DoOne(role, cfg, id, high, a, Release);
    ReleaseOnce(role, cfg, id, a);
    assert Wires([]) == [] && a.tx + [] == a.tx && Events([]) == [];
    EnactedBy(role, cfg, id, high, a, Release, Session(a.st, a.rx, [AsEvent(a.pending.value)], None, false), b, []);
  }

  // The close at the receive cap.
  lemma {:induction false} CapIsOverflow(role: Role, cfg: Config, id: nat, high: nat, a: Snap, chunk: seq<byte>,
                                         b: Snap, rs: seq<Reply>)
    requires a.pending == None && !a.st.closing
    requires b.st == a.st.(closing := true) && b.queue == a.queue && b.pending == None
    requires b.tx == a.tx + WireReplies(rs) && Events(rs) == [SentClose(CloseBody(1009))]
    ensures Enacted(role, cfg, id, high, a, b, [Overflow(chunk)], rs)
  {
    DoOne(role, cfg, id, high, a, Overflow(chunk));
    var e := SentClose(CloseBody(1009));
    assert [] + [e] == [e] && [e][1..] == [];
    assert MsgsOf(id, [e]) == [] + MsgsOf(id, []);
    assert RepliesOf([e]) == [e] + RepliesOf([]);
    assert a.queue + [] == a.queue;
    EnactedBy(role, cfg, id, high, a, Overflow(chunk), Session(b.st, a.rx + chunk, [e], None, true), b, rs);
  }

  // A closing connection answers nothing more, whatever it still receives.
  lemma {:induction false} ClosingIgnores(role: Role, cfg: Config, id: nat, high: nat, a: Snap, act: Act, b: Snap)
    requires a.pending == None && a.st.closing && !act.Release?
    requires act.Receive? ==> act.room == Room(|a.queue|, high)
    requires b.st == a.st && b.queue == a.queue && b.pending == None && b.tx == a.tx
    ensures Enacted(role, cfg, id, high, a, b, [act], [])
  {
    DoOne(role, cfg, id, high, a, act);
    assert a.queue + [] == a.queue && Wires([]) == [] && a.tx + [] == a.tx && Events([]) == [];
    EnactedBy(role, cfg, id, high, a, act, Begin(a), b, []);
  }

  // ---------------------------------------------------------------- act after act

  // s is the session t with the log l before its own, up to what the next message forgets.
  ghost predicate Along(s: Session, t: Session, l: seq<Event>) {
    && Alike(s.st, t.st) && s.pending == t.pending && s.log == l + t.log
    && (s.st.closing || s.rx == t.rx)
    && (s.pending.Some? ==> !s.st.closing)
  }

  lemma {:induction false} AlongAct(role: Role, cfg: Config, s: Session, t: Session, l: seq<Event>, a: Act)
    requires Along(s, t, l)
    ensures Along(Do(role, cfg, s, a), Do(role, cfg, t, a), l)
    ensures TakenBy(s, a) == TakenBy(t, a)
  {
    match a {
      case Release => Assoc(l, t.log, Opt(t.pending));
      case Overflow(_) => Assoc(l, t.log, [SentClose(CloseBody(1009))]);
      case Receive(chunk, room) =>
        if Reading(s) {
          Assoc(l, t.log, Pump(role, cfg, t.st, t.rx + chunk, room).events);
          PumpPending(role, cfg, t.st, t.rx + chunk, room);
          PumpAlike(role, cfg, s.st, t.st, t.rx + chunk, room);
        }
    }
  }

  // Going on with a session is going on with what it has become.
  lemma {:induction false} GoOn(role: Role, cfg: Config, s: Session, before: seq<Act>, t: Session, l: seq<Event>,
                                acts: seq<Act>)
    requires Along(DoAll(role, cfg, s, before), t, l)
    ensures Along(DoAll(role, cfg, s, before + acts), DoAll(role, cfg, t, acts), l)
    ensures Taken(role, cfg, s, before + acts) == Taken(role, cfg, s, before) + Taken(role, cfg, t, acts)
    decreases |acts|
  {
    if acts == [] {
      assert before + acts == before;
      assert Taken(role, cfg, s, before) + [] == Taken(role, cfg, s, before);
    } else {
      var k := |acts| - 1;
      GoOn(role, cfg, s, before, t, l, acts[..k]);
      assert (before + acts)[..|before + acts| - 1] == before + acts[..k]
             && (before + acts)[|before + acts| - 1] == acts[k];
      AlongAct(role, cfg, DoAll(role, cfg, s, before + acts[..k]), DoAll(role, cfg, t, acts[..k]), l, acts[k]);
      Assoc(Taken(role, cfg, s, before), Taken(role, cfg, t, acts[..k]),
            TakenBy(DoAll(role, cfg, t, acts[..k]), acts[k]));
    }
  }

  // After what has been enacted, the session is where the connection is.
  lemma {:induction false} EnactedAlong(role: Role, cfg: Config, id: nat, high: nat, a: Snap, b: Snap, acts: seq<Act>,
                                        rs: seq<Reply>)
    requires Enacted(role, cfg, id, high, a, b, acts, rs)
    ensures var s := DoAll(role, cfg, Begin(a), acts); Along(s, Begin(b), s.log) && Own(id, b)
  {
    var s := DoAll(role, cfg, Begin(a), acts);
    assert s.log + [] == s.log;
  }

  // One more act of the same call.
  lemma {:induction false} EnactedAdd(role: Role, cfg: Config, id: nat, high: nat, a: Snap, b: Snap, c: Snap,
                                      acts: seq<Act>, act: Act, rs: seq<Reply>, more: seq<Reply>)
    requires Enacted(role, cfg, id, high, a, b, acts, rs) && Enacted(role, cfg, id, high, b, c, [act], more)
    ensures Enacted(role, cfg, id, high, a, c, acts + [act], rs + more)
    ensures Taken(role, cfg, Begin(a), acts + [act]) == Taken(role, cfg, Begin(a), acts) + TakenBy(Begin(b), act)
  {
    var s, t := DoAll(role, cfg, Begin(a), acts), DoAll(role, cfg, Begin(b), [act]);
    EnactedAlong(role, cfg, id, high, a, b, acts, rs);
    GoOn(role, cfg, Begin(a), acts, Begin(b), s.log, [act]);
    DoOne(role, cfg, id, high, b, act);
    AccountsAdd(id, a, b, c, s.log, rs, t.log, more);
    RoomsAdd(role, cfg, id, high, a, b, acts, act);
  }

  lemma {:induction false} RoomsAdd(role: Role, cfg: Config, id: nat, high: nat, a: Snap, b: Snap, acts: seq<Act>,
                                    act: Act)
    requires RoomsRight(role, cfg, id, high, a, acts)
    requires b.queue == a.queue + MsgsOf(id, DoAll(role, cfg, Begin(a), acts).log)
    requires act.Receive? ==> act.room == Room(|b.queue|, high)
    ensures RoomsRight(role, cfg, id, high, a, acts + [act])
  {
    assert (acts + [act])[..|acts + [act]| - 1] == acts && (acts + [act])[|acts + [act]| - 1] == act;
  }

  // What a call has done so far: its acts, its replies, and the bytes it has read.
  datatype Deeds = Deeds(acts: seq<Act>, rs: seq<Reply>, got: seq<byte>)

  ghost predicate HasDone(role: Role, cfg: Config, id: nat, high: nat, a: Snap, b: Snap, x: Deeds) {
    Enacted(role, cfg, id, high, a, b, x.acts, x.rs) && x.got == Taken(role, cfg, Begin(a), x.acts)
  }

  lemma {:induction false} NothingDone(role: Role, cfg: Config, id: nat, high: nat, a: Snap)
    requires Own(id, a)
    ensures HasDone(role, cfg, id, high, a, a, Deeds([], [], []))
  {
    assert a.queue + [] == a.queue && Wires([]) == [] && a.tx + [] == a.tx && Events([]) == [];
  }

  // And then one more finished pass, over a chunk from the socket.
  lemma {:induction false} ChunkDone(role: Role, cfg: Config, id: nat, high: nat, a: Snap, b: Snap, x: Deeds,
                                     chunk: seq<byte>, c: Snap, rs: seq<Reply>)
    returns (y: Deeds)
    requires HasDone(role, cfg, id, high, a, b, x) && b.pending == None && !b.st.closing
    requires Finished(role, cfg, id, high, b.(rx := b.rx + chunk), c, rs)
    ensures HasDone(role, cfg, id, high, a, c, y)
    ensures y == Deeds(x.acts + [Receive(chunk, Room(|b.queue|, high))], x.rs + rs, x.got + chunk)
  {
    var act := Receive(chunk, Room(|b.queue|, high));
    PassIsReceive(role, cfg, id, high, b, chunk, c, rs);
    EnactedAdd(role, cfg, id, high, a, b, c, x.acts, act, x.rs, rs);
    y := Deeds(x.acts + [act], x.rs + rs, x.got + chunk);
  }

  // Resumption: the waiting message is pushed, and then there is one pass over what is unread.
  lemma {:induction false} ResumptionDone(role: Role, cfg: Config, id: nat, high: nat, a: Snap, b: Snap,
                                          rs: seq<Reply>) returns (x: Deeds)
    requires Own(id, a) && a.pending.Some?
    requires Finished(role, cfg, id, high, a.(queue := a.queue + [a.pending.value], pending := None), b, rs)
    ensures HasDone(role, cfg, id, high, a, b, x) && x.got == []
    ensures x.acts == [Release, Receive([], Room(|a.queue| + 1, high))] && x.rs == rs
  {
    var mid := a.(queue := a.queue + [a.pending.value], pending := None);
    PushIsRelease(role, cfg, id, high, a);
    DoOne(role, cfg, id, high, a, Release);
    assert mid.(rx := mid.rx + []) == mid;
    x := ChunkDone(role, cfg, id, high, a, mid, Deeds([Release], [], []), [], b, rs);
  }

  // ---------------------------------------------------------------- call after call

  // A call of handleWsOpen, readUpstreamFrames or either side's resumption: the connection before
  // and after it, what it did, and its replies.
  datatype Call = Call(before: Snap, after: Snap, acts: seq<Act>, rs: seq<Reply>)

  // Between two calls other threads fill and empty the data queue and the socket takes bytes of tx;
  // the connection itself is left alone.
  ghost predicate Untouched(b: Snap, a: Snap) {
    a.st == b.st && a.pending == b.pending && (b.st.closing || a.rx == b.rx)
  }

  // A connection as it opens: between messages, with nothing waiting. Its buffer may hold what came
  // behind the handshake, and a client that connects again still has its old opcode and UTF-8 state.
  ghost predicate JustOpened(a: Snap) {
    !a.st.closing && !a.st.fragmenting && a.pending == None
  }

  // The calls of one connection since it was opened.
  ghost predicate History(role: Role, cfg: Config, id: nat, high: nat, calls: seq<Call>) {
    calls == [] ||
    var earlier, c := calls[..|calls| - 1], calls[|calls| - 1];
    && History(role, cfg, id, high, earlier)
    && (if earlier == [] then JustOpened(c.before) else Untouched(earlier[|earlier| - 1].after, c.before))
    && Enacted(role, cfg, id, high, c.before, c.after, c.acts, c.rs)
  }

  // What its buffer held when it was opened.
  function Early(calls: seq<Call>): seq<byte> {
    if calls == [] then [] else calls[0].before.rx
  }

  // The session that its calls carry out.
  function SessionOf(role: Role, cfg: Config, calls: seq<Call>): Session {
    DoAll(role, cfg, Opened(Early(calls)), ActsOf(calls))
  }

  function ActsOf(calls: seq<Call>): seq<Act> {
    if calls == [] then [] else ActsOf(calls[..|calls| - 1]) + calls[|calls| - 1].acts
  }

  // What the calls pushed to the data queue, and what they put on the wire.
  ghost function PushedBy(calls: seq<Call>): seq<Msg> {
    if calls == [] then []
    else
      var c := calls[|calls| - 1];
      PushedBy(calls[..|calls| - 1])
      + (if |c.before.queue| <= |c.after.queue| then c.after.queue[|c.before.queue|..] else [])
  }

  function AnsweredBy(calls: seq<Call>): seq<Reply> {
    if calls == [] then [] else AnsweredBy(calls[..|calls| - 1]) + calls[|calls| - 1].rs
  }

  // The bytes of the connection: those behind its handshake, and those the calls read while it was
  // open and not paused.
  function ReadBy(role: Role, cfg: Config, calls: seq<Call>): seq<byte> {
    if calls == [] then []
    else
      var earlier, c := calls[..|calls| - 1], calls[|calls| - 1];
      (if earlier == [] then c.before.rx else ReadBy(role, cfg, earlier)) + Taken(role, cfg, Begin(c.before), c.acts)
  }

  // The connection after its calls is where the session is.
  ghost predicate Stands(calls: seq<Call>, s: Session)
    requires calls != []
  {
    Along(s, Begin(calls[|calls| - 1].after), s.log)
  }

  lemma {:induction false} CallLogs(role: Role, cfg: Config, id: nat, high: nat, c: Call)
    requires Enacted(role, cfg, id, high, c.before, c.after, c.acts, c.rs)
    ensures |c.before.queue| <= |c.after.queue|
    ensures c.after.queue[|c.before.queue|..] == MsgsOf(id, DoAll(role, cfg, Begin(c.before), c.acts).log)
    ensures Events(c.rs) == RepliesOf(DoAll(role, cfg, Begin(c.before), c.acts).log)
  {
  }

  // The session before the last call.
  lemma {:induction false} CallBegins(role: Role, cfg: Config, id: nat, high: nat, calls: seq<Call>, s: Session)
    requires calls != [] && History(role, cfg, id, high, calls)
    requires s == DoAll(role, cfg, Opened(Early(calls)), ActsOf(calls[..|calls| - 1]))
    requires |calls| > 1 ==> Stands(calls[..|calls| - 1], s)
    ensures Along(s, Begin(calls[|calls| - 1].before), s.log)
  {
    assert s.log + [] == s.log;
  }

  // The calls of a connection, in whatever pieces its bytes came and however often it was paused
  // and resumed, carry out one session: they leave the connection where the session stands, and
  // what they pushed and answered is what the session logged.
  lemma {:induction false} CallsAreSession(role: Role, cfg: Config, id: nat, high: nat, calls: seq<Call>)
    requires calls != [] && History(role, cfg, id, high, calls)
    ensures var s := SessionOf(role, cfg, calls);
            && Stands(calls, s)
            && ReadBy(role, cfg, calls) == Early(calls) + Taken(role, cfg, Opened(Early(calls)), ActsOf(calls))
            && PushedBy(calls) == MsgsOf(id, s.log) && Events(AnsweredBy(calls)) == RepliesOf(s.log)
    decreases |calls|
  {
    var k := |calls| - 1;
    var earlier, c, from := calls[..k], calls[k], Opened(Early(calls));
    if k > 0 {
      CallsAreSession(role, cfg, id, high, earlier);
      assert Early(earlier) == Early(calls);
    } else {
      assert Events([]) == [] && from.rx + [] == from.rx;
    }
    var s, t := DoAll(role, cfg, from, ActsOf(earlier)), DoAll(role, cfg, Begin(c.before), c.acts);
    CallBegins(role, cfg, id, high, calls, s);
    GoOn(role, cfg, from, ActsOf(earlier), Begin(c.before), s.log, c.acts);
    Assoc(from.rx, Taken(role, cfg, from, ActsOf(earlier)), Taken(role, cfg, Begin(c.before), c.acts));
    SessionStands(role, cfg, id, high, c, s, t, SessionOf(role, cfg, calls));
    SumsGrow(role, cfg, id, high, calls, s, t);
  }

  lemma {:induction false} SessionStands(role: Role, cfg: Config, id: nat, high: nat, c: Call, s: Session, t: Session,
                                         whole: Session)
    requires Enacted(role, cfg, id, high, c.before, c.after, c.acts, c.rs)
    requires t == DoAll(role, cfg, Begin(c.before), c.acts) && Along(whole, t, s.log)
    ensures Along(whole, Begin(c.after), whole.log)
  {
    EnactedAlong(role, cfg, id, high, c.before, c.after, c.acts, c.rs);
    assert whole.log + [] == whole.log;
  }

  lemma {:induction false} SumsGrow(role: Role, cfg: Config, id: nat, high: nat, calls: seq<Call>, s: Session,
                                    t: Session)
    requires calls != [] && History(role, cfg, id, high, calls)
    requires var earlier, c := calls[..|calls| - 1], calls[|calls| - 1];
             && t == DoAll(role, cfg, Begin(c.before), c.acts)
             && PushedBy(earlier) == MsgsOf(id, s.log) && Events(AnsweredBy(earlier)) == RepliesOf(s.log)
    ensures PushedBy(calls) == MsgsOf(id, s.log + t.log) && Events(AnsweredBy(calls)) == RepliesOf(s.log + t.log)
  {
    var earlier, c := calls[..|calls| - 1], calls[|calls| - 1];
    CallLogs(role, cfg, id, high, c);
    MsgsConcat(id, s.log, t.log);
    RepliesConcat(s.log, t.log);
    EventsAdd(AnsweredBy(earlier), c.rs);
  }

  // The same sums over one pass.
  lemma {:induction false} LogSums(id: nat, r: Result, log: seq<Event>, pending: Option<Event>)
    requires pending.Some? ==> pending.value.Publish?
    ensures var all := r.After(log + Opt(pending)).events;
            && MsgsOf(id, all) == MsgsOf(id, log) + Opt(AsPending(id, pending)) + MsgsOf(id, r.events)
            && RepliesOf(all) == RepliesOf(log) + RepliesOf(r.events)
  {
    var p := Opt(pending);
    MsgsConcat(id, log + p, r.events);
    MsgsConcat(id, log, p);
    RepliesConcat(log + p, r.events);
    RepliesConcat(log, p);
    assert pending.Some? ==> p[1..] == [];
    assert RepliesOf(log) + [] == RepliesOf(log);
    assert MsgsOf(id, p) == Opt(AsPending(id, pending));
    assert RepliesOf(p) == [];
  }

  lemma {:induction false} CapSums(role: Role, cfg: Config, id: nat, s: Session, bytes: seq<byte>)
    requires OnePassThenCap(role, cfg, s, bytes)
    ensures var all := Decode(role, cfg, OPEN, bytes).events;
            && MsgsOf(id, s.log) <= MsgsOf(id, all)
            && exists rs :: rs <= RepliesOf(all) && RepliesOf(s.log) == rs + [SentClose(CloseBody(1009))]
  {
    var u, close := Uncapped(s), [SentClose(CloseBody(1009))];
    LogSums(id, Decode(role, cfg, u.st, u.rx), u.log, None);
    assert s.log == u.log + close && close[1..] == [];
    MsgsConcat(id, u.log, close);
    RepliesConcat(u.log, close);
    assert MsgsOf(id, close) == [] && RepliesOf(close) == close;
    assert RepliesOf(u.log) <= RepliesOf(Decode(role, cfg, OPEN, bytes).events);
  }

  predicate ReachedCap(role: Role, cfg: Config, calls: seq<Call>) {
    SessionOf(role, cfg, calls).capped
  }

  // Over every history of a connection: the messages of one pass over all its bytes are those its
  // calls have pushed, then the waiting one, then those still to come from its buffer; and the
  // replies of that pass are those its calls have sent, and those still to come. At the receive cap,
  // where the rest is thrown away, this holds of what was done before.
  lemma {:induction false} HistoryIsOnePass(role: Role, cfg: Config, id: nat, high: nat, calls: seq<Call>)
    requires calls != [] && History(role, cfg, id, high, calls)
    ensures var all, now := Decode(role, cfg, OPEN, ReadBy(role, cfg, calls)), calls[|calls| - 1].after;
            if ReachedCap(role, cfg, calls) then
              && now.st.closing && PushedBy(calls) <= MsgsOf(id, all.events)
              && exists rs ::
                   rs <= RepliesOf(all.events) && Events(AnsweredBy(calls)) == rs + [SentClose(CloseBody(1009))]
            else
              var rest := Decode(role, cfg, now.st, now.rx);
              && MsgsOf(id, all.events) == PushedBy(calls) + Opt(now.pending) + MsgsOf(id, rest.events)
              && RepliesOf(all.events) == Events(AnsweredBy(calls)) + RepliesOf(rest.events)
  {
    CallsAreSession(role, cfg, id, high, calls);
    var early, acts := Early(calls), ActsOf(calls);
    var s := SessionOf(role, cfg, calls);
    SessionIsOnePass(role, cfg, early, acts);
    PendingIsMessage(role, cfg, early, acts);
    if s.capped {
      CapSums(role, cfg, id, s, ReadBy(role, cfg, calls));
    } else {
      LogSums(id, Decode(role, cfg, s.st, s.rx), s.log, s.pending);
      StandsThere(role, cfg, id, high, calls, s);
    }
  }

  lemma {:induction false} StandsThere(role: Role, cfg: Config, id: nat, high: nat, calls: seq<Call>, s: Session)
    requires calls != [] && History(role, cfg, id, high, calls) && Stands(calls, s)
    requires s.pending.Some? ==> s.pending.value.Publish?
    ensures var now := calls[|calls| - 1].after;
            && AsPending(id, s.pending) == now.pending && s.st.closing == now.st.closing
            && Decode(role, cfg, s.st, s.rx).events == Decode(role, cfg, now.st, now.rx).events
  {
    var c := calls[|calls| - 1];
    EnactedAlong(role, cfg, id, high, c.before, c.after, c.acts, c.rs);
    DecodeAlike(role, cfg, s.st, c.after.st, c.after.rx);
  }

  ghost predicate HistoryAtRest(role: Role, cfg: Config, calls: seq<Call>) {
    && calls != [] && !ReachedCap(role, cfg, calls)
    && var now := calls[|calls| - 1].after;
       now.pending == None && Step(role, cfg, now.st, now.rx) == Wait
  }

  lemma {:induction false} AtRestSums(role: Role, cfg: Config, id: nat, high: nat, calls: seq<Call>)
    requires History(role, cfg, id, high, calls) && HistoryAtRest(role, cfg, calls)
    ensures var all := Decode(role, cfg, OPEN, ReadBy(role, cfg, calls)).events;
            PushedBy(calls) == MsgsOf(id, all) && Events(AnsweredBy(calls)) == RepliesOf(all)
  {
    HistoryIsOnePass(role, cfg, id, high, calls);
    NothingElse(PushedBy(calls));
    NothingElse(Events(AnsweredBy(calls)));
  }

  lemma NothingElse<T>(q: seq<T>)
    ensures q + [] + [] == q && q + [] == q
  {
  }

  // So the cutting into reads and the schedule of pauses do not matter: two connections that have
  // got the same bytes, and have nothing left to do, have pushed the same messages and sent the
  // same replies.
  lemma {:induction false} HistoriesAgree(role: Role, cfg: Config, id: nat, high1: nat, calls1: seq<Call>, high2: nat,
                                          calls2: seq<Call>)
    requires History(role, cfg, id, high1, calls1) && HistoryAtRest(role, cfg, calls1)
    requires History(role, cfg, id, high2, calls2) && HistoryAtRest(role, cfg, calls2)
    requires ReadBy(role, cfg, calls1) == ReadBy(role, cfg, calls2)
    ensures PushedBy(calls1) == PushedBy(calls2) && Events(AnsweredBy(calls1)) == Events(AnsweredBy(calls2))
  {
    AtRestSums(role, cfg, id, high1, calls1);
    AtRestSums(role, cfg, id, high2, calls2);
  }

  // One event more.
  lemma {:induction false} RepliesOfAdd(es: seq<Event>, e: Event)
    ensures RepliesOf(es + [e]) == RepliesOf(es) + (if e.Publish? then [] else [e])
    ensures CloseCount(es + [e]) == CloseCount(es) + (if e.SentClose? then 1 else 0)
  {
    RepliesConcat(es, [e]);
    CloseCountConcat(es, [e]);
    assert [e][1..] == [];
  }

  lemma {:induction false} RepliesKeepCount(es: seq<Event>)
    ensures CloseCount(RepliesOf(es)) == CloseCount(es)
  {
    if es == [] {
    } else {
      var init, e := es[..|es| - 1], es[|es| - 1];
      RepliesKeepCount(init);
      RepliesOfAdd(init, e);
      RepliesOfAdd(RepliesOf(init), e);
      assert es == init + [e] && RepliesOf(init) + [] == RepliesOf(init);
    }
  }

  lemma {:induction false} RepliesKeepLast(es: seq<Event>)
    requires es != [] && es[|es| - 1].SentClose?
    ensures RepliesOf(es) != [] && RepliesOf(es)[|RepliesOf(es)| - 1] == es[|es| - 1]
  {
    RepliesOfAdd(es[..|es| - 1], es[|es| - 1]);
    assert es == es[..|es| - 1] + [es[|es| - 1]];
  }

  // Over every history, at the receive cap too, a connection sends one CLOSE at most, exactly when it
  // starts closing, and no reply after it.
  lemma {:induction false} HistoryClosesOnce(role: Role, cfg: Config, id: nat, high: nat, calls: seq<Call>)
    requires calls != [] && History(role, cfg, id, high, calls)
    ensures ClosedOnce(calls[|calls| - 1].after.st, Events(AnsweredBy(calls)))
  {
    CallsAreSession(role, cfg, id, high, calls);
    var s := SessionOf(role, cfg, calls);
    SessionClosesOnce(role, cfg, Early(calls), ActsOf(calls));
    RepliesKeepCount(s.log);
    if s.st.closing {
      RepliesKeepLast(s.log);
    }
  }
}
