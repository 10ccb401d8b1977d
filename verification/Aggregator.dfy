// The aggregator's side of the data queue: src/agg.c. Messages leave the queue one at a time, become
// frames, and are sent to the one sink as fast as its socket takes them.
module Aggregator {
  import opened Bytes
  import opened Frames
  import opened Messages
  import opened Queues
  import opened Sockets
  import opened Worker
  import Json

  // ---------------------------------------------------------------- the table of sources

  const AGG_MAX_SOURCES := 256

  datatype Source = Source(id: nat, msgCount: nat, byteCount: nat)

  // The index of a source, or the length of the table.
  function Find(src: seq<Source>, id: nat): (i: nat)
    ensures i <= |src| && (i < |src| ==> src[i].id == id)
    ensures forall j :: 0 <= j < i ==> src[j].id != id
  {
    if src == [] || src[0].id == id then 0 else 1 + Find(src[1..], id)
  }

  // A source gets an entry with its first message, while there is room.
  function Known(src: seq<Source>, id: nat): (t: seq<Source>)
    ensures |src| <= AGG_MAX_SOURCES ==> |t| <= AGG_MAX_SOURCES
  {
    if Find(src, id) == |src| < AGG_MAX_SOURCES then src + [Source(id, 0, 0)] else src
  }

  // Its counters are 64 bits wide.
  function Bumped(s: Source, m: Msg): Source {
    Source(s.id, (s.msgCount + 1) % TWO64, (s.byteCount + |m.payload|) % TWO64)
  }

  function Counted(src: seq<Source>, m: Msg): (t: seq<Source>)
    ensures |src| <= AGG_MAX_SOURCES ==> |t| <= AGG_MAX_SOURCES
  {
    var known := Known(src, m.srcId);
    var i := Find(known, m.srcId);
    if i == |known| then known else known[i := Bumped(known[i], m)]
  }

  // The number a message is printed with; 0 for a source without an entry.
  function SeqNo(src: seq<Source>, m: Msg): (n: nat)
    ensures n < TWO64
  {
    var known := Known(src, m.srcId);
    var i := Find(known, m.srcId);
    if i == |known| then 0 else Bumped(known[i], m).msgCount
  }

  // The table after a history of messages.
  function Table(history: seq<Msg>): (t: seq<Source>)
    ensures |t| <= AGG_MAX_SOURCES
  {
    if history == [] then [] else Counted(Table(history[..|history| - 1]), history[|history| - 1])
  }

  // How many of them came from one source.
  function Tally(history: seq<Msg>, id: nat): nat {
    if history == [] then 0
    else Tally(history[..|history| - 1], id) + if history[|history| - 1].srcId == id then 1 else 0
  }

  // And of how many bytes.
  function Volume(history: seq<Msg>, id: nat): nat {
    if history == [] then 0
    else
      Volume(history[..|history| - 1], id)
      + if history[|history| - 1].srcId == id then |history[|history| - 1].payload| else 0
  }

  ghost predicate Counts(s: Source, history: seq<Msg>) {
    s.msgCount == Tally(history, s.id) % TWO64 && s.byteCount == Volume(history, s.id) % TWO64
  }

  ghost predicate Accurate(t: seq<Source>, history: seq<Msg>) {
    && |t| <= 256
    && (forall i :: 0 <= i < |t| ==> Counts(t[i], history))
    && (forall i, j :: 0 <= i < j < |t| ==> t[i].id != t[j].id)
    && (|t| < 256 ==> forall id: nat :: Tally(history, id) > 0 ==> Find(t, id) < |t|)
  }

  lemma {:induction false} FoundAt(t: seq<Source>, i: nat)
    requires i < |t| && forall j :: 0 <= j < i ==> t[j].id != t[i].id
    ensures Find(t, t[i].id) == i
  {
    if i > 0 {
      FoundAt(t[1..], i - 1);
    }
  }

  ghost predicate SameIds(t: seq<Source>, u: seq<Source>) {
    |t| <= |u| && forall i :: 0 <= i < |t| ==> t[i].id == u[i].id
  }

  lemma {:induction false} FoundStill(t: seq<Source>, u: seq<Source>, id: nat)
    requires SameIds(t, u) && Find(t, id) < |t|
    ensures Find(u, id) == Find(t, id)
  {
    FoundAt(u, Find(t, id));
  }

  // Where a message's source is found once it has been given its entry.
  lemma {:induction false} KnownAt(t: seq<Source>, id: nat)
    ensures var k := Known(t, id);
            && SameIds(t, k)
            && Find(k, id) == Find(t, id)
            && (Find(k, id) == |k| ==> k == t && |t| >= AGG_MAX_SOURCES)
            && (|k| > |t| ==> Find(t, id) == |t| && k == t + [Source(id, 0, 0)])
  {
    var k := Known(t, id);
    if Find(t, id) < |t| {
      FoundStill(t, k, id);
    } else if |k| > |t| {
      FoundAt(k, |t|);
    }
  }

  lemma {:induction false} NoneFrom(history: seq<Msg>, id: nat)
    requires Tally(history, id) == 0
    ensures Volume(history, id) == 0
  {
    if history != [] {
      NoneFrom(history[..|history| - 1], id);
    }
  }

  lemma {:induction false} KnownAccurate(t: seq<Source>, history: seq<Msg>, id: nat)
    requires Accurate(t, history)
    ensures Accurate(Known(t, id), history)
  {
    KnownAt(t, id);
    var k := Known(t, id);
    if |k| > |t| {
      assert Tally(history, id) == 0;
      NoneFrom(history, id);
    }
    assert forall i :: 0 <= i < |t| ==> Counts(k[i], history);
    if |k| < 256 {
      forall x: nat | Tally(history, x) > 0 ensures Find(k, x) < |k| {
        FoundStill(t, k, x);
      }
    }
  }

  lemma TallyAdd(history: seq<Msg>, m: Msg, id: nat)
    ensures Tally(history + [m], id) == Tally(history, id) + if m.srcId == id then 1 else 0
    ensures Volume(history + [m], id) == Volume(history, id) + if m.srcId == id then |m.payload| else 0
  {
    assert (history + [m])[..|history|] == history;
  }

  lemma WrapCount(n: nat, k: nat)
    ensures (n % TWO64 + k) % TWO64 == (n + k) % TWO64
  {
  }

  lemma {:induction false} CountedAccurate(t: seq<Source>, history: seq<Msg>, m: Msg)
    requires Accurate(t, history)
    ensures Accurate(Counted(t, m), history + [m])
  {
    KnownAccurate(t, history, m.srcId);
    KnownAt(t, m.srcId);
    BumpAccurate(Known(t, m.srcId), history, m);
  }

  lemma {:induction false} BumpAccurate(k: seq<Source>, history: seq<Msg>, m: Msg)
    requires Accurate(k, history) && (Find(k, m.srcId) == |k| ==> |k| == 256)
    ensures var i := Find(k, m.srcId);
            Accurate(if i == |k| then k else k[i := Bumped(k[i], m)], history + [m])
  {
    var i := Find(k, m.srcId);
    var c := if i == |k| then k else k[i := Bumped(k[i], m)];
    forall j | 0 <= j < |c| ensures Counts(c[j], history + [m]) {
      assert Counts(k[j], history);
      TallyAdd(history, m, c[j].id);
      WrapCount(Tally(history, c[j].id), 1);
      WrapCount(Volume(history, c[j].id), |m.payload|);
    }
    if |c| < 256 {
      forall id: nat | Tally(history + [m], id) > 0 ensures Find(c, id) < |c| {
        TallyAdd(history, m, id);
        FoundStill(k, c, id);
      }
    }
  }

  // Every entry counts exactly its source's messages and bytes, and a source goes without an entry only
  // when the table is full.
  lemma {:induction false} TableIsAccurate(history: seq<Msg>)
    ensures Accurate(Table(history), history)
  {
    if history != [] {
      var k := |history| - 1;
      TableIsAccurate(history[..k]);
      CountedAccurate(Table(history[..k]), history[..k], history[k]);
      assert history == history[..k] + [history[k]];
    }
  }

  lemma {:induction false} NumberIn(t: seq<Source>, history: seq<Msg>, m: Msg)
    requires Accurate(t, history)
    ensures SeqNo(t, m) == if |t| < 256 || Find(t, m.srcId) < |t|
                           then (Tally(history, m.srcId) + 1) % TWO64 else 0
  {
    KnownAccurate(t, history, m.srcId);
    KnownAt(t, m.srcId);
    WrapCount(Tally(history, m.srcId), 1);
  }

  // So each source's messages reach the sink numbered 1, 2, 3, ...; only a source that comes when 256
  // others already have entries is numbered 0 throughout.
  lemma {:induction false} NumbersCountUp(history: seq<Msg>, m: Msg)
    ensures SeqNo(Table(history), m)
            == if |Table(history)| < 256 || Find(Table(history), m.srcId) < |Table(history)|
               then (Tally(history, m.srcId) + 1) % TWO64 else 0
  {
    TableIsAccurate(history);
    NumberIn(Table(history), history, m);
  }

  // ---------------------------------------------------------------- frames for the sink

  // A message as it goes out: with its number and its time.
  datatype RawOut = Out(msg: Msg, seqNo: nat, at: Stamp)

  // Ids are 64 bits wide and payloads fit in memory.
  predicate Fits(m: Msg) {
    m.srcId < TWO64 && |m.payload| < 0x1000_0000_0000_0000
  }

  type Out = o: RawOut | Fits(o.msg) && o.seqNo < TWO64 witness Out(Msg(0, 0, []), 0, Stamp(0, 0))

  function AsText(o: Out): Json.Text {
    Json.Text(o.msg.srcId, o.seqNo, o.at.sec, o.at.usec, o.msg.payload)
  }

  // Binary messages go out as they are, the others wrapped in JSON.
  function OutFrame(o: Out): (f: Frame)
    ensures f.Legal()
  {
    if o.msg.opcode == BIN then Frame(true, BIN, o.msg.payload)
    else
      Json.EscapeLength(o.msg.payload);
      Json.HeadFits(o.msg.srcId, o.seqNo, o.at.sec, o.at.usec);
      Frame(true, TEXT, Json.Print(AsText(o)))
  }

  // One message handled: what went out, the bytes that carry it, and the table before and after.
  datatype Parcel = Parcel(out: Out, bytes: seq<byte>, before: seq<Source>, after: seq<Source>)

  ghost predicate Packed(p: Parcel) {
    && p.bytes == Wire(OutFrame(p.out), [])
    && p.out.seqNo == SeqNo(p.before, p.out.msg) && p.after == Counted(p.before, p.out.msg)
  }

  predicate At(log: seq<Parcel>, i: nat) {
    i < |log|
  }

  ghost predicate Follows(msgs: seq<Stamped>, log: seq<Parcel>, i: nat)
    requires At(log, i) && |msgs| == |log|
  {
    && Packed(log[i]) && Stamped(log[i].out.msg, log[i].out.at) == msgs[i]
    && log[i].before == if i == 0 then [] else log[i - 1].after
  }

  // The messages handled so far, one parcel for each, from the empty table to the present one.
  ghost predicate Recorded(msgs: seq<Stamped>, log: seq<Parcel>, src: seq<Source>) {
    && |msgs| == |log|
    && src == (if log == [] then [] else log[|log| - 1].after)
    && forall i: nat :: At(log, i) ==> Follows(msgs, log, i)
  }

  lemma RecordedAdd(msgs: seq<Stamped>, log: seq<Parcel>, p: Parcel)
    requires Recorded(msgs, log, p.before) && Packed(p)
    ensures Recorded(msgs + [Stamped(p.out.msg, p.out.at)], log + [p], p.after)
  {
    forall i: nat | At(log + [p], i) ensures Follows(msgs + [Stamped(p.out.msg, p.out.at)], log + [p], i) {
      if i < |log| {
        assert At(log, i);
      }
    }
  }

  function Stream(log: seq<Parcel>): seq<byte> {
    if log == [] then [] else Stream(log[..|log| - 1]) + log[|log| - 1].bytes
  }

  lemma StreamAdd(log: seq<Parcel>, p: Parcel)
    ensures Stream(log + [p]) == Stream(log) + p.bytes
  {
    assert (log + [p])[..|log|] == log;
  }

  // ---------------------------------------------------------------- partial sends

  predicate SlotOk(slot: Option<seq<byte>>, off: nat) {
    match slot
    case None => off == 0
    case Some(f) => off <= |f|
  }

  // The bytes of a slot's frame that are still to be sent.
  function Rest(slot: Option<seq<byte>>, off: nat): seq<byte>
    requires SlotOk(slot, off)
  {
    match slot
    case None => []
    case Some(f) => f[off..]
  }

  // What a result code says of the socket.
  function EndOf(rc: int): End {
    if rc < 0 then Dead else if rc == 0 then Stuck else All
  }

  // Since the socket had sent sent0, with script0 before it, it has met this.
  ghost predicate Served(s: OutSocket, script0: seq<Departure>, sent0: seq<byte>, end: End)
    reads s
  {
    sent0 <= s.sent && Met(script0, s.script, |s.sent| - |sent0|, end)
  }

  // One send() of what is left of a frame.
  method SendFrom(s: OutSocket, f: seq<byte>, off: nat) returns (r: Sent, off': nat)
    requires off < |f|
    modifies s
    ensures off <= off' <= |f| && s.sent == old(s.sent) + f[off..off'] && (off' == off <==> !r.Took?)
    ensures SendAll(old(s.script), |f| - off)
            == match r
               case Took(_) => SendAll(s.script, |f| - off')
               case Blocked => Run(|f| - off, s.script, Stuck)
               case Broken => Run(|f| - off, s.script, Dead)
  {
    r := s.Send(f[off..]);
    off' := if r.Took? then off + r.n else off;
    if r.Took? {
      assert f[off..][..r.n] == f[off..off'];
    }
  }

  // sinkFlushOne: 1 when the slot is empty, 0 when the socket is full, -1 on an error. Whatever the
  // socket accepted is exactly what the slot lost, and it is as much as the socket takes.
  method SinkFlushOne(s: OutSocket, slot: Option<seq<byte>>, off: nat)
    returns (rc: int, slot': Option<seq<byte>>, off': nat)
    requires SlotOk(slot, off)
    modifies s
    ensures SlotOk(slot', off')
    ensures s.sent + Rest(slot', off') == old(s.sent) + Rest(slot, off)
    ensures var run := SendAll(old(s.script), |Rest(slot, off)|);
            rc == Code(run.end) && |Rest(slot', off')| == run.left && s.script == run.script
    ensures if rc == 1 then slot' == None else slot' == slot && slot.Some?
    ensures |Rest(slot, off)| <= Offer(old(s.script)) ==> rc == 1
    ensures |Rest(slot, off)| > Offer(old(s.script)) ==> rc == if Obstacle(old(s.script)).Dead? then -1 else 0
  {
    slot', off' := slot, off;
    CodeMeans(s.script, |Rest(slot, off)|);
    if slot == None {
      return 1, slot', off';
    }
    var f := slot.value;
    rc := 1;
    while off' < |f|
      invariant off <= off' <= |f| && rc == 1
      invariant s.sent == old(s.sent) + f[off..off']
      invariant SendAll(s.script, |f| - off') == SendAll(old(s.script), |f| - off)
    {
      ghost var mid := off';
      var r;
      r, off' := SendFrom(s, f, off');
      assert f[off..mid] + f[mid..off'] == f[off..off'];
      Assoc(old(s.sent), f[off..mid], f[mid..off']);
      if !r.Took? {
        rc := if r.Blocked? then 0 else -1;
        break;
      }
    }
    assert f[off..off'] + f[off'..] == f[off..];
    Assoc(old(s.sent), f[off..off'], f[off'..]);
    if rc == 1 {
      slot', off' := None, 0;
    }
  }

  // How much of a frame went out, by how much of it is left.
  lemma PartSent(sent0: seq<byte>, f: seq<byte>, sent: seq<byte>, rest: seq<byte>)
    requires sent + rest == sent0 + f && |rest| <= |f|
    ensures sent == sent0 + f[..|f| - |rest|]
  {
    assert sent == (sent0 + f)[..|sent|];
  }

  lemma {:induction false} FlushMet(a: seq<Departure>, b: seq<Departure>, c: seq<Departure>, m: nat, n: nat,
                                    left: nat, rc: int)
    requires Met(a, b, m, All)
    requires var run := SendAll(b, n); rc == Code(run.end) && left == run.left && c == run.script
    ensures left <= n && Met(a, c, m + n - left, EndOf(rc))
  {
    SendAllMet(b, n);
    MetMore(a, b, c, m, n - left, EndOf(rc));
  }

  // One slot after another: what the socket has met since script0 and sent0.
  method FlushSlot(s: OutSocket, slot: Option<seq<byte>>, off: nat, ghost script0: seq<Departure>,
                   ghost sent0: seq<byte>)
    returns (rc: int, slot': Option<seq<byte>>, off': nat)
    requires SlotOk(slot, off) && Served(s, script0, sent0, All)
    modifies s
    ensures rc in {1, 0, -1} && SlotOk(slot', off') && Served(s, script0, sent0, EndOf(rc))
    ensures s.sent + Rest(slot', off') == old(s.sent) + Rest(slot, off)
    ensures if rc == 1 then slot' == None else slot' == slot && slot.Some?
  {
    ghost var script1, sent1, n := s.script, s.sent, |Rest(slot, off)|;
    rc, slot', off' := SinkFlushOne(s, slot, off);
    FlushMet(script0, script1, s.script, |sent1| - |sent0|, n, |Rest(slot', off')|, rc);
    PartSent(sent1, Rest(slot, off), s.sent, Rest(slot', off'));
  }

  lemma FlushedBoth(s0: seq<byte>, c: seq<byte>, p: seq<byte>, s1: seq<byte>, s2: seq<byte>, p': seq<byte>)
    requires s1 + [] == s0 + c && s2 + p' == s1 + p
    ensures s2 + [] + p' == s0 + c + p
    ensures c == [] ==> s2 + p' == s0 + p
  {
    assert s1 + [] == s1 && s2 + [] == s2;
    if c == [] {
      assert s0 + c == s0;
    }
  }

  lemma Loaded(sent: seq<byte>, base: seq<byte>, log: seq<Parcel>, first: nat, p: Parcel)
    requires first <= |log| && sent + [] == base + Stream(log[first..])
    ensures sent + p.bytes[0..] == base + Stream((log + [p])[first..])
  {
    assert (log + [p])[first..] == log[first..] + [p];
    StreamAdd(log[first..], p);
    Assoc(base, Stream(log[first..]), p.bytes);
    assert sent + [] == sent;
  }

  datatype PumpEnd = NoSink | Broken | Waiting | Drained

  // How full the queue can get while sources are resumed: they are only at or below the low mark, one at
  // a time, and each adds one message.
  function Fill(low: nat, n: nat): nat {
    if n > low then n else low + 1
  }

  // What the pump finds: the queue, the messages taken so far, and the sink's socket.
  datatype Begun = Begun(queue: seq<Stamped>, msgs: seq<Stamped>, script: seq<Departure>, sent: seq<byte>)

  // What the pump's end says of the sink's socket.
  function Why(end: Option<PumpEnd>): End {
    if end == Some(PumpEnd.Broken) then Dead else if end == Some(Waiting) then Stuck else All
  }

  class Agg {
    const lowWatermark: nat
    var sink: OutSocket?
    var pending: Option<seq<byte>>
    var pendingOff: nat
    var pendingCtrl: Option<seq<byte>>
    var pendingCtrlOff: nat
    var outArmed: bool             // the sink is armed for EPOLLOUT
    var src: seq<Source>
    ghost var msgs: seq<Stamped>       // every message taken from the data queue
    ghost var log: seq<Parcel>     // and what became of it
    ghost var base: seq<byte>      // what the present sink had been sent when it was adopted
    ghost var first: nat           // where the messages for it begin in the log

    ghost predicate Valid()
      reads this
    {
      && SlotOk(pending, pendingOff) && SlotOk(pendingCtrl, pendingCtrlOff)
      && (sink == null ==> pending == None && pendingCtrl == None)
      && Recorded(msgs, log, src) && first <= |log|
    }

    // Every byte of every frame made for the sink has been accepted by its socket, once and in
    // order, or is waiting in the slot.
    ghost predicate InStep()
      reads this, sink
      requires Valid()
    {
      sink != null ==> sink.sent + Rest(pending, pendingOff) == base + Stream(log[first..])
    }

    constructor (lowWatermark: nat)
      ensures Valid() && sink == null && msgs == [] && this.lowWatermark == lowWatermark
    {
      this.lowWatermark := lowWatermark;
      sink, pending, pendingOff, pendingCtrl, pendingCtrlOff := null, None, 0, None, 0;
      outArmed, src, msgs, log, base, first := false, [], [], [], [], 0;
    }

    // findOrCreateSrc
    method FindOrCreateSrc(id: nat) returns (i: Option<nat>)
      modifies this`src
      ensures src == Known(old(src), id)
      ensures i == if Find(src, id) == |src| then None else Some(Find(src, id))
    {
      KnownAt(src, id);
      for k := 0 to |src|
        invariant forall j :: 0 <= j < k ==> src[j].id != id
      {
        if src[k].id == id {
          FoundAt(src, k);
          return Some(k);
        }
      }
      if |src| >= AGG_MAX_SOURCES {
        return None;
      }
      src := src + [Source(id, 0, 0)];
      return Some(|src| - 1);
    }

    // aggOnMessage
    method OnMessage(x: Stamped) returns (f: seq<byte>, ghost p: Parcel)
      requires Recorded(msgs, log, src) && Fits(x.msg)
      modifies this`src, this`msgs, this`log
      ensures Recorded(msgs, log, src) && msgs == old(msgs) + [x]
      ensures log == old(log) + [p] && p.out.msg == x.msg && p.out.at == x.at && p.bytes == f
    {
      var m, at := x.msg, x.at;
      var i := FindOrCreateSrc(m.srcId);
      var seqNo := 0;
      if i.Some? {
        src := src[i.value := Bumped(src[i.value], m)];
        seqNo := src[i.value].msgCount;
      }
      ghost var o: Out := Out(m, seqNo, at);
      if m.opcode == BIN {
        f := NewFrame(BIN, m.payload);
      } else {
        var text := Json.PrintInto(Json.Text(m.srcId, seqNo, at.sec, at.usec, m.payload));
        assert OutFrame(o).Legal();
        f := NewFrame(TEXT, text);
      }
      p := Parcel(o, f, old(src), src);
      RecordedAdd(msgs, log, p);
      msgs, log := msgs + [x], log + [p];
    }

    // closeSink: the frame being sent is lost with its sink.
    method CloseSink()
      requires Valid()
      modifies this`sink, this`pending, this`pendingOff, this`pendingCtrl, this`pendingCtrlOff
      ensures Valid() && sink == null
    {
      sink := null;
      pending, pendingOff := None, 0;
      pendingCtrl, pendingCtrlOff := None, 0;
    }

    // adoptSink: the old sink gets as much of a CLOSE frame (1001) as its socket takes, and is closed.
    method AdoptSink(newSink: OutSocket)
      requires Valid() && newSink != sink
      modifies this, sink
      ensures Valid() && InStep() && sink == newSink && pending == None && pendingCtrl == None && !outArmed
      ensures msgs == old(msgs) && log == old(log) && first == |log| && base == newSink.sent
      ensures old(sink) != null ==>
                var f := Wire(Frame(true, CLOSE, [3, 233]), []);
                old(sink).sent == old(sink.sent) + f[..|f| - SendAll(old(sink.script), |f|).left]
    {
      if sink != null {
        var f := NewFrame(CLOSE, [1001 / 256, 1001 % 256]);
        var rc, slot, off := SinkFlushOne(sink, Some(f), 0);
        PartSent(old(sink.sent), f, sink.sent, Rest(slot, off));
        CloseSink();
      }
      sink, base, first, outArmed := newSink, newSink.sent, |log|, false;
    }

    // A PING of the sink is answered unless an answer is already waiting.
    method AnswerPing(payload: seq<byte>)
      requires Valid() && sink != null && |payload| <= 125
      modifies this`pendingCtrl, this`pendingCtrlOff
      ensures Valid() && (old(InStep()) ==> InStep())
      ensures old(pendingCtrl).Some? ==> pendingCtrl == old(pendingCtrl) && pendingCtrlOff == old(pendingCtrlOff)
      ensures old(pendingCtrl) == None
              ==> pendingCtrl == Some(Wire(Frame(true, PONG, payload), [])) && pendingCtrlOff == 0
    {
      if pendingCtrl == None {
        var f := NewFrame(PONG, payload);
        pendingCtrl, pendingCtrlOff := Some(f), 0;
      }
    }

    // sinkFlush: the control slot, then the data slot.
    method SinkFlush() returns (rc: int)
      requires Valid()
      modifies this`pending, this`pendingOff, this`pendingCtrl, this`pendingCtrlOff, sink
      ensures Valid() && rc in {1, 0, -1} && (sink == null ==> rc == 1)
      // the data slot waits for the control slot
      ensures pendingCtrl.Some? ==> pending == old(pending) && pendingOff == old(pendingOff)
      ensures sink != null ==> Served(sink, old(sink.script), old(sink.sent), EndOf(rc))
      ensures rc == 1 ==> pending == None && pendingCtrl == None
      ensures rc != 1 ==> sink != null && (pending.Some? || pendingCtrl.Some?)
      ensures sink != null ==>
                sink.sent + Rest(pendingCtrl, pendingCtrlOff) + Rest(pending, pendingOff)
                == old(sink.sent) + old(Rest(pendingCtrl, pendingCtrlOff)) + old(Rest(pending, pendingOff))
      ensures old(pendingCtrl) == None && old(InStep()) ==> pendingCtrl == None && InStep()
    {
      if sink == null {
        return 1;
      }
      ghost var s0, c, p := sink.sent, Rest(pendingCtrl, pendingCtrlOff), Rest(pending, pendingOff);
      ghost var script0 := sink.script;
      rc, pendingCtrl, pendingCtrlOff := FlushSlot(sink, pendingCtrl, pendingCtrlOff, script0, s0);
      if rc <= 0 {
        return;
      }
      ghost var s1 := sink.sent;
      rc, pending, pendingOff := FlushSlot(sink, pending, pendingOff, script0, s0);
      FlushedBoth(s0, c, p, s1, sink.sent, Rest(pending, pendingOff));
    }

    method SinkArm()
      modifies this`outArmed
      ensures sink != null ==> (outArmed <==> pending.Some? || pendingCtrl.Some?)
    {
      if sink != null {
        outArmed := pending.Some? || pendingCtrl.Some?;
      }
    }

    // resumeParked: the pending message goes to the back of the queue, and reading starts again.
    method ResumeParked(q: Fifo<Stamped>, c: Conn) returns (events: Disposition)
      requires c.pendingMsg.Some?
      modifies q, c`pendingMsg
      ensures q.items == old(q.items) + [old(c.pendingMsg).value] && c.pendingMsg == None
      ensures events == if c.tx != [] then RearmInOut else RearmIn
    {
      q.Push(c.pendingMsg.value);
      c.pendingMsg := None;
      events := if |c.tx| > 0 then RearmInOut else RearmIn;
    }

    // A message becomes the frame in the slot.
    method Load(x: Stamped)
      requires Valid() && sink != null && pending == None && Fits(x.msg)
      modifies this`pending, this`pendingOff, this`src, this`msgs, this`log
      ensures Valid() && (old(InStep()) ==> InStep())
      ensures msgs == old(msgs) + [x]
    {
      var f;
      ghost var p;
      f, p := OnMessage(x);
      if old(InStep()) {
        Loaded(sink.sent, base, old(log), first, p);
      }
      pending, pendingOff := Some(f), 0;
    }

    method TakeMessage(q: Fifo<Stamped>) returns (taken: Option<Stamped>)
      requires Valid() && sink != null && pending == None
      requires AllFit(q.items)
      modifies this, q
      ensures sink == old(sink) && pendingCtrl == old(pendingCtrl) && base == old(base) && first == old(first)
      ensures Valid() && (old(InStep()) ==> InStep())
      ensures old(q.items) == Opt(taken) + q.items
      ensures msgs == old(msgs) + Opt(taken)
      ensures taken == None ==> q.items == [] && pending == None
    {
      taken := q.TryPop();
      if taken.Some? {
        assert taken.value == old(q.items)[0];
        Load(taken.value);
      }
    }

    // Below the low mark, the k-th of the connections, which has waited longest, is resumed.
    method ResumeNext(q: Fifo<Stamped>, park: Fifo<Conn>, ghost conns: seq<Conn>, ghost ws: seq<Stamped>, ghost k: nat)
      returns (ghost k': nat)
      requires Distinct(conns) && k <= |ws| == |conns| && park.items == conns[k..] && WaitFrom(conns, ws, k)
      modifies q, park, conns
      ensures k' == if |old(q.items)| <= lowWatermark && k < |ws| then k + 1 else k
      ensures park.items == conns[k'..] && WaitFrom(conns, ws, k')
      ensures q.items == old(q.items) + ws[k..k']
    {
      k' := k;
      SlicesAt(conns, ws, k);
      if |q.items| <= lowWatermark {
        var c := park.TryPop();
        if c.Some? {
          OneOfMany(conns, k);
          var events := ResumeParked(q, c.value);
          k' := k + 1;
        }
      }
    }

    // The first half of a turn of the pump.
    method FlushOrStop() returns (end: Option<PumpEnd>)
      requires Valid() && sink != null
      modifies this`sink, this`pending, this`pendingOff, this`pendingCtrl, this`pendingCtrlOff, this`outArmed, sink
      ensures Valid() && end in {None, Some(PumpEnd.Broken), Some(Waiting)}
      ensures Served(old(sink), old(sink.script), old(sink.sent), Why(end))
      ensures if end == Some(PumpEnd.Broken) then sink == null else sink == old(sink)
      ensures end == None ==> pending == None && pendingCtrl == None
      ensures end == Some(Waiting) ==> outArmed && (pending.Some? || pendingCtrl.Some?)
      ensures old(InStep()) && old(pendingCtrl) == None ==> InStep() && pendingCtrl == None
    {
      var rc := SinkFlush();
      if rc < 0 {
        CloseSink();
        return Some(PumpEnd.Broken);
      }
      if rc == 0 {
        SinkArm();
        return Some(Waiting);
      }
      end := None;
    }

    // The second half: resume the k-th of the parked connections, if it is time, and take a message.
    method Advance(q: Fifo<Stamped>, park: Fifo<Conn>, ghost conns: seq<Conn>, ghost ws: seq<Stamped>, ghost k: nat)
      returns (end: Option<PumpEnd>, ghost k': nat, ghost taken: Option<Stamped>)
      requires Valid() && sink != null && pending == None && pendingCtrl == None
      requires Distinct(conns) && k <= |ws| == |conns| && park.items == conns[k..] && WaitFrom(conns, ws, k)
      requires AllFit(q.items) && AllFit(ws)
      modifies this, q, park, conns
      ensures sink == old(sink) && pendingCtrl == None && base == old(base) && first == old(first)
      ensures Valid() && (old(InStep()) ==> InStep())
      ensures k <= k' <= |ws| && park.items == conns[k'..] && WaitFrom(conns, ws, k')
      ensures Opt(taken) + q.items == old(q.items) + ws[k..k'] && msgs == old(msgs) + Opt(taken)
      ensures |q.items| <= Fill(lowWatermark, |old(q.items)|)
      ensures end == if taken == None then Some(Drained) else None
      ensures end == Some(Drained) ==> q.items == [] && park.items == [] && pending == None && !outArmed
    {
      ghost var q1 := q.items;
      k' := ResumeNext(q, park, conns, ws, k);
      FitTogether(q1, ws, k, k');
      var m := TakeMessage(q);
      taken, end := m, None;
      if m == None {
        SinkArm();
        end := Some(Drained);
      }
    }

    // One turn of the pump, which began with `at`; the first k of the parked connections have been
    // resumed and `popped` has been taken.
    method Turn(q: Fifo<Stamped>, park: Fifo<Conn>, ghost conns: seq<Conn>, ghost ws: seq<Stamped>, ghost k: nat,
                ghost at: Begun, ghost popped: seq<Stamped>)
      returns (end: Option<PumpEnd>, ghost k': nat, ghost popped': seq<Stamped>)
      requires Valid() && sink != null
      requires Distinct(conns) && k <= |ws| == |conns| && park.items == conns[k..] && WaitFrom(conns, ws, k)
      requires AllFit(q.items) && AllFit(ws)
      requires popped + q.items == at.queue + ws[..k] && msgs == at.msgs + popped
      requires Served(sink, at.script, at.sent, All)
      modifies this, sink, q, park, conns
      ensures Valid() && base == old(base) && first == old(first)
      ensures k <= k' <= |ws| && park.items == conns[k'..] && WaitFrom(conns, ws, k') && AllFit(q.items)
      ensures popped' + q.items == at.queue + ws[..k'] && msgs == at.msgs + popped'
      ensures |q.items| <= Fill(lowWatermark, |old(q.items)|)
      ensures Served(old(sink), at.script, at.sent, Why(end))
      ensures if end == Some(PumpEnd.Broken) then sink == null else sink == old(sink)
      ensures old(InStep()) && old(pendingCtrl) == None ==> InStep() && pendingCtrl == None
      ensures end == None ==> |q.items| - k' < |old(q.items)| - k
      ensures end != Some(NoSink)
      ensures end == Some(Waiting) ==> outArmed && (pending.Some? || pendingCtrl.Some?)
      ensures end == Some(Drained)
              ==> q.items == [] && park.items == [] && pending == None && pendingCtrl == None && !outArmed
    {
      k', popped' := k, popped;
      SlicesAt(conns, ws, k);
      ghost var s, script1, sent1, q1 := sink, sink.script, sink.sent, q.items;
      end := FlushOrStop();
      MetMore(at.script, script1, s.script, |sent1| - |at.sent|, |s.sent| - |sent1|, Why(end));
      if end == None {
        ghost var taken;
        end, k', taken := Advance(q, park, conns, ws, k);
        TurnedOn(at.queue, at.msgs, ws, k, k', popped, q1, taken, q.items);
        popped' := popped + Opt(taken);
      }
    }

    // aggPump. The parked connections are conns, oldest first, and their messages ws.
    method Pump(q: Fifo<Stamped>, park: Fifo<Conn>, ghost conns: seq<Conn>, ghost ws: seq<Stamped>)
      returns (end: PumpEnd, ghost popped: seq<Stamped>, ghost k: nat)
      requires Valid()
      requires Distinct(conns) && |ws| == |conns| && park.items == conns && WaitFrom(conns, ws, 0)
      requires AllFit(q.items) && AllFit(ws)
      modifies this, sink, q, park, conns
      ensures Valid()
      // messages move from the front of the queue to the log, and from the k oldest parked sources to
      // the back of the queue; none is lost, doubled or overtaken
      ensures k <= |ws| && popped + q.items == old(q.items) + ws[..k] && msgs == old(msgs) + popped
      ensures park.items == conns[k..] && WaitFrom(conns, ws, k)
      ensures |q.items| <= Fill(lowWatermark, |old(q.items)|)
      // and the log is what the sink is being sent
      ensures sink != null ==> sink == old(sink) && base == old(base) && first == old(first)
      ensures old(InStep()) && old(pendingCtrl) == None ==> InStep()
      // why it stopped
      ensures end.NoSink? <==> old(sink) == null
      ensures end.NoSink? || end.Broken? <==> sink == null
      ensures end.Waiting? ==> outArmed && (pending.Some? || pendingCtrl.Some?)
      ensures end.Drained? ==> q.items == [] && park.items == [] && pending == None && pendingCtrl == None && !outArmed
      // what the socket did: it broke, or it was full, or else it took bytes in every turn
      ensures !end.NoSink? ==> Served(old(sink), old(sink.script), old(sink.sent), Why(Some(end)))
      // so a socket that keeps taking bytes is drained to
      ensures !end.NoSink? ==>
                Justified(old(sink.script), old(sink).script, |old(sink).sent| - |old(sink.sent)|, Why(Some(end)))
    {
      popped, k := [], 0;
      if sink == null {
        return PumpEnd.NoSink, popped, k;
      }
      ghost var s, at := sink, Begun(q.items, msgs, sink.script, sink.sent);
      ghost var clean := InStep() && pendingCtrl == None;
      var why := None;
      while why == None
        invariant Valid() && base == old(base) && first == old(first)
        invariant k <= |ws| && park.items == conns[k..] && WaitFrom(conns, ws, k)
        invariant popped + q.items == at.queue + ws[..k] && msgs == at.msgs + popped && AllFit(q.items)
        invariant |q.items| <= Fill(lowWatermark, |at.queue|)
        invariant Served(s, at.script, at.sent, Why(why))
        invariant if why == Some(PumpEnd.Broken) then sink == null else sink == s && why != Some(NoSink)
        invariant clean ==> InStep() && pendingCtrl == None
        invariant why == Some(Waiting) ==> outArmed && (pending.Some? || pendingCtrl.Some?)
        invariant why == Some(Drained)
                  ==> q.items == [] && park.items == [] && pending == None && pendingCtrl == None && !outArmed
        decreases why == None, |q.items| + |conns| - k
      {
        why, k, popped := Turn(q, park, conns, ws, k, at, popped);
      }
      end := why.value;
      MetIsJustified(at.script, s.script, |s.sent| - |at.sent|, Why(why));
    }
  }

  // A turn, as the queue sees it: what leaves at the front, and what resumed sources add at the back.
  lemma {:induction false} TurnedOn(q0: seq<Stamped>, m0: seq<Stamped>, ws: seq<Stamped>, k: nat, k': nat,
                                    popped: seq<Stamped>, q1: seq<Stamped>, taken: Option<Stamped>,
                                    q2: seq<Stamped>)
    requires k <= k' <= |ws| && popped + q1 == q0 + ws[..k] && AllFit(q1) && AllFit(ws)
    requires Opt(taken) + q2 == q1 + ws[k..k']
    ensures popped + Opt(taken) + q2 == q0 + ws[..k']
    ensures m0 + popped + Opt(taken) == m0 + (popped + Opt(taken)) && AllFit(q2)
    ensures |q2| - k' == |q1| - k - |Opt(taken)|
  {
    assert ws[..k'] == ws[..k] + ws[k..k'];
    Regrouped(q0, ws[..k], popped, q1, ws[k..k'], Opt(taken), q2);
    FitBehind(Opt(taken), q2, q1, ws, k, k');
    assert |Opt(taken) + q2| == |q1 + ws[k..k']|;
  }

  lemma {:induction false} Regrouped(q0: seq<Stamped>, w: seq<Stamped>, popped: seq<Stamped>, q1: seq<Stamped>,
                                     got: seq<Stamped>, t: seq<Stamped>, q2: seq<Stamped>)
    requires popped + q1 == q0 + w && t + q2 == q1 + got
    ensures popped + t + q2 == q0 + (w + got)
  {
    calc {
      popped + t + q2;
      popped + (t + q2);
      popped + (q1 + got);
      popped + q1 + got;
      q0 + w + got;
      q0 + (w + got);
    }
  }

  lemma {:induction false} FitBehind(t: seq<Stamped>, q2: seq<Stamped>, q1: seq<Stamped>, ws: seq<Stamped>, k: nat,
                                     k': nat)
    requires k <= k' <= |ws| && AllFit(q1) && AllFit(ws) && t + q2 == q1 + ws[k..k']
    ensures AllFit(q2)
  {
    forall i | 0 <= i < |q2| ensures Fits(q2[i].msg) {
      var j := |t| + i;
      assert (t + q2)[j] == q2[i];
      if j < |q1| {
        assert (q1 + ws[k..k'])[j] == q1[j];
      } else {
        assert (q1 + ws[k..k'])[j] == ws[k + j - |q1|];
      }
    }
  }

  lemma SlicesAt(conns: seq<Conn>, ws: seq<Stamped>, k: nat)
    requires k <= |ws| == |conns|
    ensures ws[k..k] == [] && (k < |ws| ==> ws[k..k + 1] == [ws[k]])
    ensures k < |ws| ==> conns[k..][0] == conns[k] && conns[k..][1..] == conns[k + 1..]
  {
  }

  // The first k of the connections have handed over their messages, the others still wait.
  ghost predicate WaitFrom(conns: seq<Conn>, ws: seq<Stamped>, k: nat)
    reads conns
    requires |ws| == |conns|
  {
    forall i :: 0 <= i < |conns| ==> conns[i].pendingMsg == if i < k then None else Some(ws[i])
  }

  lemma {:induction false} FitTogether(q: seq<Stamped>, ws: seq<Stamped>, k: nat, k': nat)
    requires AllFit(q) && AllFit(ws) && k <= k' <= |ws|
    ensures AllFit(q + ws[k..k'])
  {
  }

  ghost predicate Distinct(cs: seq<Conn>) {
    cs == [] || (cs[0] !in cs[1..] && Distinct(cs[1..]))
  }

  lemma {:induction false} OneOfMany(cs: seq<Conn>, k: nat)
    requires Distinct(cs)
    ensures k < |cs| ==> forall i :: 0 <= i < |cs| && i != k ==> cs[i] != cs[k]
  {
    if 0 < k < |cs| {
      OneOfMany(cs[1..], k - 1);
      assert cs[k] in cs[1..];
    }
  }

  ghost predicate AllFit(ms: seq<Stamped>) {
    forall i :: 0 <= i < |ms| ==> Fits(ms[i].msg)
  }
}
