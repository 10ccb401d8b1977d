// resumePausedClients of src/ws_client.c: the reactor hands the waiting messages of its paused
// clients to the data queue once it has drained, without overfilling it again.
module Resumption {
  import opened Bytes
  import opened Assembler
  import opened Messages
  import opened Queues
  import opened Sessions
  import opened Turns
  import opened Reactor

  // What a client is to the assembler and to the queue at one moment.
  datatype View = View(id: nat, st: State, rx: seq<byte>, tx: seq<byte>, pending: Option<Msg>)

  ghost function ViewOf(c: UpstreamClient): View
    reads c
  {
    View(c.id, c.Abs(), c.rx, c.tx, Plain(c.pendingMsg))
  }

  // A pass over a client's buffered bytes: the room it had in the queue, and its replies.
  datatype Pass = Pass(room: nat, rs: seq<Reply>)

  // From v to w the client was resumed: its waiting message and then the next `room` messages of
  // its buffered bytes are `part`, the pass stopped where the assembler says, and its replies are on
  // the wire.
  ghost predicate Resumed(cfg: Config, v: View, w: View, part: seq<Msg>, x: Pass) {
    var o := Pump(Client, cfg, v.st, v.rx, x.room);
    && v.pending.Some? && w.id == v.id
    && w.st == o.st && w.rx == o.rx && w.pending == AsPending(v.id, o.pending)
    && part == [v.pending.value] + MsgsOf(v.id, o.events)
    && w.tx == v.tx + WireReplies(x.rs) && Events(x.rs) == RepliesOf(o.events)
  }

  // The queue, but for the times of its messages.
  ghost function Waiting(q: Queue<Stamped>): (ms: seq<Msg>)
    reads q, q.Repr
    requires q.Valid()
    ensures |ms| == q.size
  {
    Unstamped(q.Contents())
  }

  // The waiting message goes to the queue, with its time, and reading starts again.
  method ReleasePending(c: UpstreamClient, q: Queue<Stamped>)
    requires c.Valid() && c.readPaused && q.Valid() && c !in q.Repr
    modifies c`pendingMsg, c`readPaused, c`wantIn, c`wantOut, q.Repr
    ensures c.Reading() && q.Valid() && fresh(q.Repr - old(q.Repr))
    ensures q.Contents() == old(q.Contents()) + [old(c.pendingMsg).value]
    ensures var a := old(c.Now(q)); c.Now(q) == a.(queue := a.queue + [a.pending.value], pending := None)
  {
    UnstampedAdd(q.Contents(), c.pendingMsg.value);
    q.Push(c.pendingMsg.value);
    c.pendingMsg, c.readPaused := None, false;
    var ok := c.UpdateEvents();
  }

  // A client as it is at one moment.
  ghost function ViewAt(id: nat, a: Snap): View {
    View(id, a.st, a.rx, a.tx, a.pending)
  }

  lemma {:induction false} Released(cfg: Config, id: nat, high: nat, a: Snap, b: Snap, rs: seq<Reply>)
    returns (part: seq<Msg>, x: Pass)
    requires Own(id, a) && a.pending.Some? && |a.queue| < high
    requires Finished(Client, cfg, id, high, a.(queue := a.queue + [a.pending.value], pending := None), b, rs)
    ensures b.queue == a.queue + part && Resumed(cfg, ViewAt(id, a), ViewAt(id, b), part, x)
    ensures HasDone(Client, cfg, id, high, a, b, Deeds([Release, Receive([], x.room)], x.rs, []))
    ensures x.room == Room(|a.queue| + 1, high)
    ensures |b.queue| <= high && (b.pending.Some? ==> |b.queue| == high)
    ensures b.pending == None ==> Step(Client, cfg, b.st, b.rx) == Wait
  {
    var mid := a.(queue := a.queue + [a.pending.value], pending := None);
    FinishedQueue(Client, cfg, id, high, mid, b, rs);
    x := Pass(Room(|mid.queue|, high), rs);
    var o := Pump(Client, cfg, a.st, a.rx, x.room);
    var y := ResumptionDone(Client, cfg, id, high, a, b, rs);
    part := [a.pending.value] + MsgsOf(id, o.events);
    Assoc(a.queue, [a.pending.value], MsgsOf(id, o.events));
  }

  method ResumeClient(c: UpstreamClient, cfg: Config, q: Queue<Stamped>, high: nat)
    returns (ghost part: seq<Msg>, ghost x: Pass)
    requires c.Valid() && c.readPaused && q.Valid() && c !in q.Repr && q.size < high
    modifies c, q.Repr
    ensures c.Valid() && q.Valid() && fresh(q.Repr - old(q.Repr))
    ensures Waiting(q) == old(Waiting(q)) + part && Resumed(cfg, old(ViewOf(c)), ViewOf(c), part, x)
    // The waiting message goes first, with its time.
    ensures old(q.Contents()) + [old(c.pendingMsg).value] <= q.Contents()
    // As a part of the client's session, it is a release and a pass.
    ensures HasDone(Client, cfg, c.id, high, old(c.Now(q)), c.Now(q), Deeds([Release, Receive([], x.room)], x.rs, []))
    ensures x.room == Room(old(q.size) + 1, high)
    ensures q.size <= high
    ensures c.readPaused ==> q.size == high
    ensures !c.readPaused ==> Step(Client, cfg, c.Abs(), c.rx) == Wait
  {
    ghost var a := c.Now(q);
    ReleasePending(c, q);
    var rc;
    ghost var rs;
    rc, rs := c.ProcessBufferedFrames(cfg, q, high);
    part, x := Released(cfg, c.id, high, a, c.Now(q), rs);
  }

  ghost predicate AllDistinct(clients: seq<UpstreamClient>) {
    forall i, j :: 0 <= i < j < |clients| ==> clients[i] != clients[j]
  }

  ghost predicate AllValid(clients: seq<UpstreamClient>, q: Queue<Stamped>)
    reads q, clients
  {
    forall i :: 0 <= i < |clients| ==> clients[i].Valid() && clients[i] !in q.Repr
  }

  // From v to w a client was left alone because it was not paused, or was resumed from a queue of n
  // messages on, contributing its part to the queue, and is paused again or has done all it can.
  ghost predicate Handled(cfg: Config, high: nat, n: nat, v: View, w: View, part: seq<Msg>, x: Pass) {
    if v.pending == None then w == v && part == []
    else
      && Resumed(cfg, v, w, part, x) && x.room == Room(n + 1, high)
      && (w.pending == None ==> Step(Client, cfg, w.st, w.rx) == Wait)
  }

  // The clients at one moment (ws), and what the first |parts| of them contributed, each in its pass.
  datatype Ledger = Ledger(ws: seq<View>, parts: seq<seq<Msg>>, passes: seq<Pass>)

  // The queue before client i: the n messages it held at first, and what came before.
  function SizeAt(n: nat, l: Ledger, i: nat): nat
    requires i <= |l.parts|
  {
    n + |Flatten(l.parts[..i])|
  }

  ghost predicate AllHandled(cfg: Config, high: nat, n: nat, vs: seq<View>, l: Ledger) {
    && |l.parts| == |l.passes| <= |vs| == |l.ws|
    && (forall i :: 0 <= i < |l.parts| ==> Handled(cfg, high, SizeAt(n, l, i), vs[i], l.ws[i], l.parts[i], l.passes[i]))
    && (forall i :: |l.parts| <= i < |vs| ==> l.ws[i] == vs[i])
  }

  lemma {:induction false} HandledNext(cfg: Config, high: nat, n: nat, vs: seq<View>, l: Ledger, w: View,
                                       part: seq<Msg>, x: Pass) returns (l': Ledger)
    requires AllHandled(cfg, high, n, vs, l) && |l.parts| < |vs|
    requires Handled(cfg, high, n + |Flatten(l.parts)|, vs[|l.parts|], w, part, x)
    ensures AllHandled(cfg, high, n, vs, l') && |l'.parts| == |l.parts| + 1
    ensures l'.ws == l.ws[|l.parts| := w] && l'.parts == l.parts + [part]
  {
    l' := Ledger(l.ws[|l.parts| := w], l.parts + [part], l.passes + [x]);
    forall i | 0 <= i < |l'.parts|
      ensures Handled(cfg, high, SizeAt(n, l', i), vs[i], l'.ws[i], l'.parts[i], l'.passes[i])
    {
      if i < |l.parts| {
        assert l'.parts[..i] == l.parts[..i];
      } else {
        assert l'.parts[..i] == l.parts;
      }
    }
  }

  // A resumption, seen as a part of the client's session.
  lemma {:induction false} ResumedIsEnacted(cfg: Config, high: nat, v: View, w: View, part: seq<Msg>, x: Pass,
                                            queue: seq<Msg>)
    requires Resumed(cfg, v, w, part, x) && x.room == Room(|queue| + 1, high)
    requires v.pending.value.srcId == v.id && !v.st.closing
    ensures HasDone(Client, cfg, v.id, high, Snap(v.st, v.rx, queue, v.tx, v.pending),
                    Snap(w.st, w.rx, queue + part, w.tx, w.pending), Deeds([Release, Receive([], x.room)], x.rs, []))
  {
    var a, b := Snap(v.st, v.rx, queue, v.tx, v.pending), Snap(w.st, w.rx, queue + part, w.tx, w.pending);
    Assoc(queue, [v.pending.value], MsgsOf(v.id, Pump(Client, cfg, v.st, v.rx, x.room).events));
    var y := ResumptionDone(Client, cfg, v.id, high, a, b, x.rs);
  }

  method HandleClient(c: UpstreamClient, cfg: Config, q: Queue<Stamped>, high: nat)
    returns (stop: bool, ghost part: seq<Msg>, ghost x: Pass)
    requires c.Valid() && q.Valid() && c !in q.Repr && q.size <= high
    modifies c, q.Repr
    ensures c.Valid() && q.Valid() && fresh(q.Repr - old(q.Repr)) && q.size <= high
    ensures Waiting(q) == old(Waiting(q)) + part && old(q.Contents()) <= q.Contents()
    ensures ViewOf(c).pending.Some? ==> q.size == high
    ensures stop ==> ViewOf(c) == old(ViewOf(c)) && part == [] && q.size == high
    ensures !stop ==> Handled(cfg, high, old(q.size), old(ViewOf(c)), ViewOf(c), part, x)
  {
    stop, part, x := false, [], Pass(0, []);
    if c.readPaused {
      if q.size >= high {
        return true, [], x;
      }
      part, x := ResumeClient(c, cfg, q, high);
    }
  }

  ghost predicate SeenAs(clients: seq<UpstreamClient>, ws: seq<View>)
    reads clients
  {
    |ws| == |clients| && forall i :: 0 <= i < |ws| ==> ViewOf(clients[i]) == ws[i]
  }

  // One turn of the loop: only client k changes.
  method HandleNth(clients: seq<UpstreamClient>, k: nat, cfg: Config, q: Queue<Stamped>, high: nat, ghost ws: seq<View>)
    returns (stop: bool, ghost w: View, ghost part: seq<Msg>, ghost x: Pass)
    requires k < |clients| && q.Valid() && AllDistinct(clients) && AllValid(clients, q) && SeenAs(clients, ws)
    requires q.size <= high
    modifies clients[k], q.Repr
    ensures q.Valid() && fresh(q.Repr - old(q.Repr)) && AllValid(clients, q) && SeenAs(clients, ws[k := w])
    ensures q.size <= high && Waiting(q) == old(Waiting(q)) + part && old(q.Contents()) <= q.Contents()
    ensures w.pending.Some? ==> q.size == high
    ensures stop ==> w == ws[k] && part == [] && q.size == high
    ensures !stop ==> Handled(cfg, high, old(q.size), ws[k], w, part, x)
  {
    stop, part, x := HandleClient(clients[k], cfg, q, high);
    w := ViewOf(clients[k]);
  }

  // The books when the queue holds `now`, having held q0 at first.
  ghost predicate Books(cfg: Config, high: nat, q0: seq<Msg>, vs: seq<View>, l: Ledger, now: seq<Msg>) {
    && AllHandled(cfg, high, |q0|, vs, l)
    && now == q0 + Flatten(l.parts) && |now| <= high
    && forall i :: 0 <= i < |l.parts| && l.ws[i].pending.Some? ==> |now| == high
  }

  lemma {:induction false} BooksNext(cfg: Config, high: nat, q0: seq<Msg>, vs: seq<View>, l: Ledger, now: seq<Msg>,
                  w: View, part: seq<Msg>, x: Pass, then_: seq<Msg>)
    returns (l': Ledger)
    requires Books(cfg, high, q0, vs, l, now) && |l.parts| < |vs|
    requires Handled(cfg, high, |now|, vs[|l.parts|], w, part, x) && then_ == now + part && |then_| <= high
    requires w.pending.Some? ==> |then_| == high
    ensures Books(cfg, high, q0, vs, l', then_) && |l'.parts| == |l.parts| + 1 && l'.ws == l.ws[|l.parts| := w]
  {
    l' := HandledNext(cfg, high, |q0|, vs, l, w, part, x);
    FlattenAdd(q0, l.parts, part);
  }

  // One turn of the loop: the next client is handled, unless the queue is full.
  method NextTurn(clients: seq<UpstreamClient>, cfg: Config, q: Queue<Stamped>, high: nat,
                  ghost q0: seq<Msg>, ghost vs: seq<View>, ghost l: Ledger, k: nat)
    returns (stop: bool, ghost l': Ledger)
    requires q.Valid() && AllDistinct(clients) && AllValid(clients, q) && SeenAs(clients, l.ws)
    requires Books(cfg, high, q0, vs, l, Waiting(q)) && k == |l.parts| < |clients|
    modifies clients[k], q.Repr
    ensures q.Valid() && fresh(q.Repr - old(q.Repr)) && AllValid(clients, q) && SeenAs(clients, l'.ws)
    ensures Books(cfg, high, q0, vs, l', Waiting(q)) && old(q.Contents()) <= q.Contents()
    ensures if stop then l' == l && q.size == high else |l'.parts| == k + 1
  {
    ghost var now := Waiting(q);
    ghost var w, part, x;
    stop, w, part, x := HandleNth(clients, k, cfg, q, high, l.ws);
    l' := l;
    if stop {
      assert l.ws[k := w] == l.ws;
    } else {
      l' := BooksNext(cfg, high, q0, vs, l, now, w, part, x, Waiting(q));
    }
  }

  // vs are the clients before, l.ws the clients after. They are handled from the front; the queue
  // grows by their parts, in order, and never past its mark.
  method ResumePausedClients(clients: seq<UpstreamClient>, cfg: Config, q: Queue<Stamped>, low: nat, high: nat,
                             ghost vs: seq<View>)
    returns (ghost l: Ledger)
    requires low < high && q.Valid() && AllDistinct(clients) && AllValid(clients, q)
    requires SeenAs(clients, vs)
    modifies q.Repr, clients
    ensures q.Valid() && fresh(q.Repr - old(q.Repr)) && AllValid(clients, q)
    ensures AllHandled(cfg, high, old(q.size), vs, l) && SeenAs(clients, l.ws)
    ensures Waiting(q) == old(Waiting(q)) + Flatten(l.parts) && old(q.Contents()) <= q.Contents()
    ensures old(q.size) <= high ==> q.size <= high
    ensures old(q.size) > low ==> l.parts == []
    // Past the low mark test, whoever is still paused is paused because the queue is full.
    ensures old(q.size) <= low ==> forall w :: w in l.ws && w.pending.Some? ==> q.size == high
  {
    l := Ledger(vs, [], []);
    ghost var q0 := Waiting(q);
    if q.size > low {
      return;
    }
    assert q0 + Flatten(l.parts) == q0;
    for k := 0 to |clients|
      invariant q.Valid() && fresh(q.Repr - old(q.Repr)) && AllValid(clients, q)
      invariant Books(cfg, high, q0, vs, l, Waiting(q)) && |l.parts| == k && SeenAs(clients, l.ws)
      invariant old(q.Contents()) <= q.Contents()
    {
      var stop;
      stop, l := NextTurn(clients, cfg, q, high, q0, vs, l, k);
      if stop {
        return;
      }
    }
  }
}
