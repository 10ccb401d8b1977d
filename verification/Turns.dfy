// How a loop that takes one frame a turn adds up to one pass of the assembler: the part of the
// argument that the reactor's and the worker's loops share.
module Turns {
  import opened Bytes
  import opened Frames
  import opened Assembler
  import opened Messages

  // How many messages a pass may push before it finds the data queue full.
  function Room(size: nat, high: nat): nat {
    if size >= high then 0 else high - size
  }

  // What became of a step's events: replies sent, and a message pushed or, on a full queue, kept.
  ghost predicate Carried(id: nat, es: seq<Event>, q0: seq<Msg>, q1: seq<Msg>, pending: Option<Msg>,
                          rs: seq<Reply>, high: nat) {
    && Events(rs) == RepliesOf(es)
    && (if es != [] && es[0].Publish? && |q0| >= high then q1 == q0 && pending == Some(AsMsg(id, es[0]))
        else q1 == q0 + MsgsOf(id, es) && pending == None)
  }

  function AsPending(id: nat, p: Option<Event>): Option<Msg> {
    match p
    case None => None
    case Some(e) => if e.Publish? then Some(AsMsg(id, e)) else None
  }

  // A connection and the data queue at one moment.
  datatype Snap = Snap(st: State, rx: seq<byte>, queue: seq<Msg>, tx: seq<byte>, pending: Option<Msg>)

  // The pass as the assembler defines it, from this moment.
  ghost function PumpFrom(role: Role, cfg: Config, high: nat, a: Snap): Stop {
    Pump(role, cfg, a.st, a.rx, Room(|a.queue|, high))
  }

  // Between a and b, the events es of the pass from a have been carried out.
  ghost predicate Through(role: Role, cfg: Config, id: nat, high: nat, a: Snap, b: Snap, es: seq<Event>,
                          rs: seq<Reply>) {
    && PumpFrom(role, cfg, high, a) == PumpFrom(role, cfg, high, b).After(es)
    && b.queue == a.queue + MsgsOf(id, es)
    && b.tx == a.tx + WireReplies(rs) && Events(rs) == RepliesOf(es)
  }

  // Between a and b, the whole pass from a has been carried out: the assembler's state and unread
  // bytes, the messages pushed, the one kept pending, and the replies on the wire.
  ghost predicate Finished(role: Role, cfg: Config, id: nat, high: nat, a: Snap, b: Snap, rs: seq<Reply>) {
    var o := PumpFrom(role, cfg, high, a);
    && b.st == o.st && b.rx == o.rx
    && b.queue == a.queue + MsgsOf(id, o.events)
    && b.pending == AsPending(id, o.pending)
    && b.tx == a.tx + WireReplies(rs) && Events(rs) == RepliesOf(o.events)
  }

  lemma ThroughStart(role: Role, cfg: Config, id: nat, high: nat, a: Snap)
    ensures Through(role, cfg, id, high, a, a, [], [])
  {
    var o := PumpFrom(role, cfg, high, a);
    assert [] + o.events == o.events;
    assert Events([]) == [];
  }

  lemma TurnWaits(role: Role, cfg: Config, id: nat, high: nat, a: Snap, b: Snap, es: seq<Event>, rs: seq<Reply>)
    requires Through(role, cfg, id, high, a, b, es, rs)
    requires Step(role, cfg, b.st, b.rx) == Wait && b.pending == None
    ensures Finished(role, cfg, id, high, a, b, rs)
  {
    assert es + [] == es;
  }

  lemma PumpStep(role: Role, cfg: Config, st: State, rx: seq<byte>, room: nat)
    requires Step(role, cfg, st, rx).Go?
    ensures var m := Step(role, cfg, st, rx);
            var o := Pump(role, cfg, st, rx, room);
            if m.st.closing then o == Stop(m.st, rx[m.used..], m.events, None)
            else if m.events != [] && m.events[0].Publish? && room == 0 then
              o == Stop(m.st, rx[m.used..], [], Some(m.events[0]))
            else
              var room' := if m.events != [] && m.events[0].Publish? then room - 1 else room;
              o == Pump(role, cfg, m.st, rx[m.used..], room').After(m.events)
  {
  }

  // The books after a turn: messages, replies and bytes sent still match the events carried out.
  ghost predicate Accounts(id: nat, a: Snap, b: Snap, es: seq<Event>, rs: seq<Reply>) {
    && b.queue == a.queue + MsgsOf(id, es)
    && b.tx == a.tx + WireReplies(rs) && Events(rs) == RepliesOf(es)
  }

  lemma AccountsAdd(id: nat, a: Snap, b: Snap, c: Snap, es: seq<Event>, rs: seq<Reply>, new_: seq<Event>,
                    more: seq<Reply>)
    requires Accounts(id, a, b, es, rs) && Accounts(id, b, c, new_, more)
    ensures Accounts(id, a, c, es + new_, rs + more)
  {
    MsgsConcat(id, es, new_);
    Assoc(a.queue, MsgsOf(id, es), MsgsOf(id, new_));
    WireRepliesConcat(rs, more);
    Assoc(a.tx, WireReplies(rs), WireReplies(more));
    RepliesConcat(es, new_);
    EventsAdd(rs, more);
  }

  lemma EventsAdd(rs: seq<Reply>, more: seq<Reply>)
    ensures Events(rs + more) == Events(rs) + Events(more)
  {
  }

  // A message that stays pending leaves the books as they were.
  lemma AccountsKept(id: nat, b: Snap, c: Snap, e: Event, more: seq<Reply>)
    requires e.Publish? && c.queue == b.queue && c.tx == b.tx + WireReplies(more) && Events(more) == RepliesOf([e])
    ensures Accounts(id, b, c, [], more)
  {
    assert [e][1..] == [];
    assert b.queue + [] == b.queue;
  }

  lemma TurnGoes(role: Role, cfg: Config, id: nat, high: nat, a: Snap, b: Snap, c: Snap,
                 es: seq<Event>, rs: seq<Reply>, more: seq<Reply>)
    requires Through(role, cfg, id, high, a, b, es, rs)
    requires Step(role, cfg, b.st, b.rx).Go?
    requires var m := Step(role, cfg, b.st, b.rx);
             && c.st == m.st && c.rx == b.rx[m.used..] && c.tx == b.tx + WireReplies(more)
             && Carried(id, m.events, b.queue, c.queue, c.pending, more, high)
    ensures var m := Step(role, cfg, b.st, b.rx);
            if c.pending.Some? || c.st.closing then Finished(role, cfg, id, high, a, c, rs + more)
            else Through(role, cfg, id, high, a, c, es + m.events, rs + more)
  {
    var m := Step(role, cfg, b.st, b.rx);
    StepPublishes(role, cfg, b.st, b.rx);
    if c.pending.Some? {
      assert m.events == [m.events[0]];
      AccountsKept(id, b, c, m.events[0], more);
      AccountsAdd(id, a, b, c, es, rs, [], more);
      assert es + [] == es;
      TurnPasses(role, cfg, high, a, b, c, es, m, true);
    } else {
      AccountsAdd(id, a, b, c, es, rs, m.events, more);
      TurnPasses(role, cfg, high, a, b, c, es, m, false);
    }
  }

  // A step that publishes does not close.
  lemma StepPublishes(role: Role, cfg: Config, st: State, rx: seq<byte>)
    ensures var m := Step(role, cfg, st, rx);
            m.Go? && m.events != [] && m.events[0].Publish? ==> !m.st.closing
  {
  }

  // What one turn does to the pass: pa, pb and pc are the passes from three moments.
  lemma JoinStops(pa: Stop, pb: Stop, pc: Stop, es: seq<Event>, new_: seq<Event>)
    requires pa == pb.After(es)
    ensures pb == pc.After(new_) ==> pa == pc.After(es + new_)
    ensures pb.events == [] ==> pa == Stop(pb.st, pb.rx, es, pb.pending)
  {
    Assoc(es, new_, pc.events);
    assert es + [] == es;
  }

  lemma TurnPasses(role: Role, cfg: Config, high: nat, a: Snap, b: Snap, c: Snap, es: seq<Event>, m: Move, kept: bool)
    requires PumpFrom(role, cfg, high, a) == PumpFrom(role, cfg, high, b).After(es)
    requires m == Step(role, cfg, b.st, b.rx) && m.Go? && c.st == m.st && c.rx == b.rx[m.used..]
    requires var publishes := m.events != [] && m.events[0].Publish?;
             && (kept <==> publishes && |b.queue| >= high)
             && (publishes ==> !m.st.closing)
             && |c.queue| == |b.queue| + (if publishes && !kept then 1 else 0)
    ensures if kept then PumpFrom(role, cfg, high, a) == Stop(c.st, c.rx, es, Some(m.events[0]))
            else if m.st.closing then PumpFrom(role, cfg, high, a) == Stop(c.st, c.rx, es + m.events, None)
            else PumpFrom(role, cfg, high, a) == PumpFrom(role, cfg, high, c).After(es + m.events)
  {
    var room := Room(|b.queue|, high);
    PumpStep(role, cfg, b.st, b.rx, room);
    var publishes := m.events != [] && m.events[0].Publish?;
    var pb := Pump(role, cfg, b.st, b.rx, room);
    if m.st.closing || kept {
      JoinStops(PumpFrom(role, cfg, high, a), pb, pb, es, []);
    } else {
      assert Room(|c.queue|, high) == if publishes then room - 1 else room;
      JoinStops(PumpFrom(role, cfg, high, a), pb, PumpFrom(role, cfg, high, c), es, m.events);
    }
  }

  // A pass pushes at most as many messages as there is room for, and stops for backpressure only
  // when it has used all of it.
  lemma {:induction false} PumpUsesRoom(role: Role, cfg: Config, id: nat, st: State, rx: seq<byte>, room: nat)
    ensures var o := Pump(role, cfg, st, rx, room);
            && |MsgsOf(id, o.events)| <= room
            && (o.pending.Some? ==> |MsgsOf(id, o.events)| == room)
    decreases |rx|
  {
    var m := Step(role, cfg, st, rx);
    if m.Go? {
      PumpStep(role, cfg, st, rx, room);
      StepPublishes(role, cfg, st, rx);
      MsgsOfStep(id, m.events);
      var publishes := m.events != [] && m.events[0].Publish?;
      if !m.st.closing && !(publishes && room == 0) {
        var room' := if publishes then room - 1 else room;
        PumpUsesRoom(role, cfg, id, m.st, rx[m.used..], room');
        MsgsConcat(id, m.events, Pump(role, cfg, m.st, rx[m.used..], room').events);
      }
    }
  }

  lemma MsgsOfStep(id: nat, es: seq<Event>)
    requires |es| <= 1
    ensures |MsgsOf(id, es)| == if es != [] && es[0].Publish? then 1 else 0
  {
    assert es != [] ==> es[1..] == [];
  }

  // A finished pass leaves the data queue within its mark, stops paused only on a full queue, and
  // otherwise leaves nothing that could still be done.
  lemma FinishedQueue(role: Role, cfg: Config, id: nat, high: nat, a: Snap, b: Snap, rs: seq<Reply>)
    requires Finished(role, cfg, id, high, a, b, rs)
    ensures a.queue <= b.queue
    ensures |a.queue| <= high ==> |b.queue| <= high
    ensures b.pending.Some? ==> |b.queue| >= high
    ensures b.pending == None ==> Step(role, cfg, b.st, b.rx) == Wait
  {
    PumpUsesRoom(role, cfg, id, a.st, a.rx, Room(|a.queue|, high));
    PumpIsPartOfDecode(role, cfg, a.st, a.rx, Room(|a.queue|, high));
  }
}
