// The threads of the aggregator as one transition system: listeners, workers, the upstream reactor
// and the aggregator, with any number of listeners, workers and sources. A step is one operation
// under a mutex, one system call, or one decision; "check the queue size, then push" is two steps,
// and a push is two more (enqueue, then write the eventfd).
module Protocol {
  import opened Bytes

  // ---------------------------------------------------------------- state

  // Message number `num` of source `src`, counting from 0 in the order it was assembled.
  datatype Item = Item(src: nat, num: nat)

  // A source: an inbound connection or an upstream client.
  datatype Source = Source(
    upstream: bool,
    registered: bool,          // in the listeners' epoll set
    armed: bool,               // ... and one-shot armed there
    closed: bool,
    stranded: bool,            // resumed while still registered, so never armed again
    hand: Option<nat>,         // the message its handler has decided to push and not pushed yet
    pending: Option<nat>,      // pendingMsg: waiting for room
    made: nat,                 // messages assembled so far
    kept: seq<nat>,            // ... without those dropped by a disconnect
    dropped: set<nat>
  )

  datatype WorkerPc =
    | Idle
    | Hold(c: nat)             // running a handler on c
    | Pushing(c: nat)          // saw room in the data queue, about to push
    | Notifying(c: nat)        // pushed, about to write the eventfd
    | Parking(c: nat)          // saw a full queue and set pendingMsg, about to enter the park list
    | Leaving(c: nat)          // in the park list, about to remove c from epoll
    | HandingOff(c: nat)       // removed a sink from epoll, about to push it to the control queue

  datatype ReactorPc = RIdle | RPushing(u: nat) | RNotifying(u: nat)

  datatype AggPc =
    | Ctrl                     // draining the control queue
    | Flush                    // top of aggPump
    | Low                      // about to compare the queue size with the low mark
    | ParkPop                  // saw it at or below the low mark
    | Resume(c: nat)           // took c off the park list, about to push its message
    | ResumeNotify(c: nat)
    | ResumeAdd(c: nat)        // about to add c to epoll again
    | TryPop
    | Blocked                  // in epoll_wait

  datatype Done = Done(item: Item, delivered: bool)

  datatype State = State(
    srcs: seq<Source>,
    listeners: seq<Option<nat>>,   // the connection each listener is moving to the work queue
    workq: seq<nat>,
    workers: seq<WorkerPc>,
    reactor: ReactorPc,
    queue: seq<Item>,
    wakeups: nat,                  // the data queue's eventfd counter
    park: seq<nat>,
    ctrl: seq<nat>,
    agg: AggPc,
    sink: Option<nat>,
    outArmed: bool,                // the sink is armed for EPOLLOUT
    slot: Option<Item>,            // the frame being sent
    done: seq<Done>                // popped and finished: delivered whole, or dropped with its sink
  )

  datatype Config = Config(low: nat, high: nat)

  const FRESH := Source(false, true, true, false, false, None, None, 0, [], {})
  const UPSTREAM := FRESH.(upstream := true, registered := false, armed := false)

  ghost predicate Init(s: State) {
    && s.srcs == [] && s.workq == [] && s.queue == [] && s.wakeups == 0 && s.park == [] && s.ctrl == []
    && (forall i :: 0 <= i < |s.listeners| ==> s.listeners[i] == None)
    && (forall i :: 0 <= i < |s.workers| ==> s.workers[i] == Idle)
    && s.reactor == RIdle && s.agg == Ctrl && s.sink == None && !s.outArmed && s.slot == None && s.done == []
  }

  // ---------------------------------------------------------------- steps

  datatype ListenerAct = Accept | Event(i: nat, c: nat) | Enqueue(i: nat)

  datatype WorkerAct =
    | Take                     // pop() from the work queue
    | MakeRoom                 // a message is complete and the data queue has room
    | MakeFull                 // ... or has not: it becomes the pending message
    | Push | Notify
    | Park | Leave
    | Rearm | CloseConn
    | HandOff | PushCtrl

  datatype ReactorAct =
    | AddUpstream
    | UMakeRoom(u: nat) | UMakeFull(u: nat) | UResume(u: nat)
    | UPush | UNotify
    | Disconnect(u: nat)

  datatype AggAct =
    | Adopt | CtrlEmpty
    | NoSink | FlushBroken | FlushBlocked | FlushDone
    | LowYes | LowNo
    | ParkTake | ParkEmpty
    | ResumePush | ResumeWrite | ResumeArm
    | Pop | PopEmpty
    | Wake(readEvent: bool, sinkGone: bool)

  datatype Step =
    | OfListener(l: ListenerAct)
    | OfWorker(w: nat, a: WorkerAct)
    | OfReactor(r: ReactorAct)
    | OfAgg(g: AggAct)

  // An inbound connection that exists.
  predicate Inbound(s: State, c: nat) {
    c < |s.srcs| && !s.srcs[c].upstream
  }

  predicate Upstream(s: State, u: nat) {
    u < |s.srcs| && s.srcs[u].upstream
  }

  function Make(x: Source): Source {
    x.(made := x.made + 1, kept := x.kept + [x.made])
  }

  function SetSrc(s: State, c: nat, x: Source): State
    requires c < |s.srcs|
  {
    s.(srcs := s.srcs[c := x])
  }

  function SetPc(s: State, w: nat, pc: WorkerPc): State
    requires w < |s.workers|
  {
    s.(workers := s.workers[w := pc])
  }

  predicate ListenerEnabled(s: State, a: ListenerAct) {
    match a
    case Accept => true
    case Event(i, c) => i < |s.listeners| && s.listeners[i] == None && Inbound(s, c) && s.srcs[c].armed
    case Enqueue(i) => i < |s.listeners| && s.listeners[i].Some?
  }

  // One-shot delivery disarms the connection.
  function ListenerNext(s: State, a: ListenerAct): State
    requires ListenerEnabled(s, a)
  {
    match a
    case Accept => s.(srcs := s.srcs + [FRESH])
    case Event(i, c) => SetSrc(s, c, s.srcs[c].(armed := false)).(listeners := s.listeners[i := Some(c)])
    case Enqueue(i) => s.(listeners := s.listeners[i := None], workq := s.workq + [s.listeners[i].value])
  }

  predicate WorkerEnabled(cfg: Config, s: State, w: nat, a: WorkerAct) {
    && w < |s.workers|
    && var pc := s.workers[w];
       match a
       case Take => pc.Idle? && s.workq != []
       case MakeRoom => pc.Hold? && Inbound(s, pc.c) && |s.queue| < cfg.high
       case MakeFull => pc.Hold? && Inbound(s, pc.c) && |s.queue| >= cfg.high
       case Push => pc.Pushing? && Inbound(s, pc.c) && s.srcs[pc.c].hand.Some?
       case Notify => pc.Notifying?
       case Park => pc.Parking?
       case Leave => pc.Leaving? && Inbound(s, pc.c)
       case Rearm => pc.Hold? && Inbound(s, pc.c)
       case CloseConn => pc.Hold? && Inbound(s, pc.c)
       case HandOff => pc.Hold? && Inbound(s, pc.c)
       case PushCtrl => pc.HandingOff?
  }

  function WorkerNext(cfg: Config, s: State, w: nat, a: WorkerAct): State
    requires WorkerEnabled(cfg, s, w, a)
  {
    var pc := s.workers[w];
    match a
    case Take => SetPc(s, w, Hold(s.workq[0])).(workq := s.workq[1..])
    case MakeRoom =>
      var x := Make(s.srcs[pc.c]);
      SetPc(SetSrc(s, pc.c, x.(hand := Some(x.made - 1))), w, Pushing(pc.c))
    case MakeFull =>
      var x := Make(s.srcs[pc.c]);
      SetPc(SetSrc(s, pc.c, x.(pending := Some(x.made - 1))), w, Parking(pc.c))
    case Push =>
      var x := s.srcs[pc.c];
      SetPc(SetSrc(s, pc.c, x.(hand := None)), w, Notifying(pc.c)).(queue := s.queue + [Item(pc.c, x.hand.value)])
    case Notify => SetPc(s, w, Hold(pc.c)).(wakeups := s.wakeups + 1)
    case Park => SetPc(s, w, Leaving(pc.c)).(park := s.park + [pc.c])
    case Leave => SetPc(SetSrc(s, pc.c, s.srcs[pc.c].(registered := false, armed := false)), w, Idle)
    // epoll_ctl(MOD) arms only what is registered
    case Rearm => SetPc(SetSrc(s, pc.c, s.srcs[pc.c].(armed := s.srcs[pc.c].registered)), w, Idle)
    case CloseConn =>
      SetPc(SetSrc(s, pc.c, s.srcs[pc.c].(registered := false, armed := false, closed := true)), w, Idle)
    case HandOff => SetPc(SetSrc(s, pc.c, s.srcs[pc.c].(registered := false, armed := false)), w, HandingOff(pc.c))
    case PushCtrl => SetPc(s, w, Idle).(ctrl := s.ctrl + [pc.c])
  }

  predicate ReactorEnabled(cfg: Config, s: State, a: ReactorAct) {
    match a
    case AddUpstream => true
    case UMakeRoom(u) => s.reactor.RIdle? && Upstream(s, u) && s.srcs[u].pending == None && |s.queue| < cfg.high
    case UMakeFull(u) => s.reactor.RIdle? && Upstream(s, u) && s.srcs[u].pending == None && |s.queue| >= cfg.high
    case UResume(u) => s.reactor.RIdle? && Upstream(s, u) && s.srcs[u].pending.Some? && |s.queue| < cfg.high
    case UPush => s.reactor.RPushing? && Upstream(s, s.reactor.u) && s.srcs[s.reactor.u].hand.Some?
    case UNotify => s.reactor.RNotifying?
    case Disconnect(u) => s.reactor.RIdle? && Upstream(s, u)
  }

  function ReactorNext(cfg: Config, s: State, a: ReactorAct): State
    requires ReactorEnabled(cfg, s, a)
  {
    match a
    case AddUpstream => s.(srcs := s.srcs + [UPSTREAM])
    case UMakeRoom(u) =>
      var x := Make(s.srcs[u]);
      SetSrc(s, u, x.(hand := Some(x.made - 1))).(reactor := RPushing(u))
    case UMakeFull(u) =>
      var x := Make(s.srcs[u]);
      SetSrc(s, u, x.(pending := Some(x.made - 1)))
    case UResume(u) =>
      var x := s.srcs[u];
      SetSrc(s, u, x.(hand := x.pending, pending := None)).(reactor := RPushing(u))
    case UPush =>
      var u := s.reactor.u;
      SetSrc(s, u, s.srcs[u].(hand := None)).(reactor := RNotifying(u),
                                              queue := s.queue + [Item(u, s.srcs[u].hand.value)])
    case UNotify => s.(reactor := RIdle, wakeups := s.wakeups + 1)
    case Disconnect(u) =>
      var x := s.srcs[u];
      if x.pending == None then s
      else
        SetSrc(s, u, x.(pending := None, dropped := x.dropped + {x.pending.value},
                        kept := if x.kept == [] then [] else x.kept[..|x.kept| - 1]))
  }

  // closeSink: the connection is closed and the frame in the slot goes with it.
  function CloseSink(s: State): State {
    match s.sink
    case None => s
    case Some(c) =>
      var s1 := if c < |s.srcs| then SetSrc(s, c, s.srcs[c].(closed := true)) else s;
      s1.(sink := None, outArmed := false, slot := None,
          done := s.done + (if s.slot.Some? then [Done(s.slot.value, false)] else []))
  }

  predicate AggEnabled(cfg: Config, s: State, a: AggAct) {
    match a
    case Adopt => s.agg.Ctrl? && s.ctrl != []
    case CtrlEmpty => s.agg.Ctrl? && s.ctrl == []
    case NoSink => s.agg.Flush? && s.sink == None
    case FlushBroken => s.agg.Flush? && s.sink.Some?
    case FlushBlocked => s.agg.Flush? && s.sink.Some? && s.slot.Some?
    case FlushDone => s.agg.Flush? && s.sink.Some?
    case LowYes => s.agg.Low? && |s.queue| <= cfg.low
    case LowNo => s.agg.Low? && |s.queue| > cfg.low
    case ParkTake => s.agg.ParkPop? && s.park != []
    case ParkEmpty => s.agg.ParkPop? && s.park == []
    case ResumePush => s.agg.Resume? && Inbound(s, s.agg.c) && s.srcs[s.agg.c].pending.Some?
    case ResumeWrite => s.agg.ResumeNotify?
    case ResumeArm => s.agg.ResumeAdd? && Inbound(s, s.agg.c)
    case Pop => s.agg.TryPop? && s.queue != []
    case PopEmpty => s.agg.TryPop? && s.queue == []
    case Wake(readEvent, sinkGone) => s.agg.Blocked? && (readEvent ==> s.wakeups > 0) && (sinkGone ==> s.sink.Some?)
  }

  function AggNext(cfg: Config, s: State, a: AggAct): State
    requires AggEnabled(cfg, s, a)
  {
    match a
    case Adopt => CloseSink(s).(sink := Some(s.ctrl[0]), ctrl := s.ctrl[1..], outArmed := false)
    case CtrlEmpty => s.(agg := Flush)
    case NoSink => s.(agg := Blocked)
    case FlushBroken => CloseSink(s).(agg := Blocked)
    case FlushBlocked => s.(outArmed := true, agg := Blocked)
    case FlushDone =>
      s.(slot := None, agg := Low,
         done := s.done + (if s.slot.Some? then [Done(s.slot.value, true)] else []))
    case LowYes => s.(agg := ParkPop)
    case LowNo => s.(agg := TryPop)
    case ParkTake => s.(agg := Resume(s.park[0]), park := s.park[1..])
    case ParkEmpty => s.(agg := TryPop)
    case ResumePush =>
      var c := s.agg.c;
      SetSrc(s, c, s.srcs[c].(pending := None)).(agg := ResumeNotify(c),
                                                 queue := s.queue + [Item(c, s.srcs[c].pending.value)])
    case ResumeWrite => s.(agg := ResumeAdd(s.agg.c), wakeups := s.wakeups + 1)
    // epoll_ctl(ADD) fails on what is still registered
    case ResumeArm =>
      var c := s.agg.c;
      var x := s.srcs[c];
      SetSrc(s, c, if x.registered then x.(stranded := true) else x.(registered := true, armed := true)).(agg := TryPop)
    case Pop => s.(agg := Flush, slot := Some(s.queue[0]), queue := s.queue[1..])
    case PopEmpty => s.(agg := Blocked, outArmed := false)
    case Wake(readEvent, sinkGone) =>
      (if sinkGone then CloseSink(s) else s).(agg := Ctrl, wakeups := if readEvent then 0 else s.wakeups)
  }

  predicate Enabled(cfg: Config, s: State, step: Step) {
    match step
    case OfListener(a) => ListenerEnabled(s, a)
    case OfWorker(w, a) => WorkerEnabled(cfg, s, w, a)
    case OfReactor(a) => ReactorEnabled(cfg, s, a)
    case OfAgg(a) => AggEnabled(cfg, s, a)
  }

  function Next(cfg: Config, s: State, step: Step): State
    requires Enabled(cfg, s, step)
  {
    match step
    case OfListener(a) => ListenerNext(s, a)
    case OfWorker(w, a) => WorkerNext(cfg, s, w, a)
    case OfReactor(a) => ReactorNext(cfg, s, a)
    case OfAgg(a) => AggNext(cfg, s, a)
  }

  // ---------------------------------------------------------------- runs

  // A run: every step enabled where it is taken.
  predicate Possible(cfg: Config, s: State, steps: seq<Step>)
    decreases |steps|
  {
    steps == [] || (Enabled(cfg, s, steps[0]) && Possible(cfg, Next(cfg, s, steps[0]), steps[1..]))
  }

  function After(cfg: Config, s: State, steps: seq<Step>): State
    requires Possible(cfg, s, steps)
    decreases |steps|
  {
    if steps == [] then s else After(cfg, Next(cfg, s, steps[0]), steps[1..])
  }

  ghost predicate Reachable(cfg: Config, s: State) {
    exists s0, steps :: Init(s0) && Possible(cfg, s0, steps) && After(cfg, s0, steps) == s
  }
}
