// The data queue in every run: how far beyond its high mark racing threads can push it, and why the
// aggregator never sleeps on a message it could send.
module Flow {
  import opened Bytes
  import opened Protocol
  import opened Ownership
  import opened Delivery

  // ---------------------------------------------------------------- the lines

  // In one step a line stays, grows by one at its end, or loses its first.
  ghost predicate FifoStep<T>(a: seq<T>, b: seq<T>) {
    b == a || (|b| == |a| + 1 && a <= b) || (a != [] && b == a[1..])
  }

  ghost predicate FifoLines(s: State, s': State) {
    FifoStep(s.workq, s'.workq) && FifoStep(s.park, s'.park) && FifoStep(s.ctrl, s'.ctrl) && FifoStep(s.queue, s'.queue)
  }

  lemma {:induction false} WorkerFifo(cfg: Config, s: State, w: nat, a: WorkerAct)
    requires WorkerEnabled(cfg, s, w, a)
    ensures FifoLines(s, WorkerNext(cfg, s, w, a))
  {
  }

  lemma {:induction false} AggFifo(cfg: Config, s: State, a: AggAct)
    requires AggEnabled(cfg, s, a)
    ensures FifoLines(s, AggNext(cfg, s, a))
  {
  }

  // Every line in the system is first in, first out: connections to be handled, parked sources, sinks to be
  // adopted, messages.
  lemma {:induction false} LinesAreFifo(cfg: Config, s: State, step: Step)
    requires Enabled(cfg, s, step)
    ensures FifoLines(s, Next(cfg, s, step))
  {
    match step {
      case OfWorker(w, a) => WorkerFifo(cfg, s, w, a);
      case OfAgg(a) => AggFifo(cfg, s, a);
      case _ =>
    }
  }

  // What a step decides about a source's message: to push it, only below the high mark; to keep it waiting,
  // only at the mark.
  ghost predicate DecidedByMark(cfg: Config, s: State, s': State, c: nat)
    requires c < |s.srcs| && c < |s'.srcs|
  {
    && (s.srcs[c].hand == None && s'.srcs[c].hand.Some? ==> |s.queue| < cfg.high)
    && (s.srcs[c].pending == None && s'.srcs[c].pending.Some? ==> |s.queue| >= cfg.high)
    && (s'.srcs[c].made != s.srcs[c].made ==>
          s'.srcs[c].made == s.srcs[c].made + 1
          && (s'.srcs[c].hand == Some(s.srcs[c].made) || s'.srcs[c].pending == Some(s.srcs[c].made)))
  }

  lemma {:induction false} WorkerDecides(cfg: Config, s: State, w: nat, a: WorkerAct, c: nat)
    requires WorkerEnabled(cfg, s, w, a) && c < |s.srcs|
    ensures c < |WorkerNext(cfg, s, w, a).srcs| && DecidedByMark(cfg, s, WorkerNext(cfg, s, w, a), c)
  {
  }

  lemma {:induction false} ReactorDecides(cfg: Config, s: State, a: ReactorAct, c: nat)
    requires ReactorEnabled(cfg, s, a) && c < |s.srcs|
    ensures c < |ReactorNext(cfg, s, a).srcs| && DecidedByMark(cfg, s, ReactorNext(cfg, s, a), c)
  {
  }

  lemma {:induction false} AggDecides(cfg: Config, s: State, a: AggAct, c: nat)
    requires AggEnabled(cfg, s, a) && c < |s.srcs|
    ensures c < |AggNext(cfg, s, a).srcs| && DecidedByMark(cfg, s, AggNext(cfg, s, a), c)
  {
  }

  lemma {:induction false} PausesOnlyWhenFull(cfg: Config, s: State, step: Step, c: nat)
    requires Enabled(cfg, s, step) && c < |s.srcs|
    ensures c < |Next(cfg, s, step).srcs| && DecidedByMark(cfg, s, Next(cfg, s, step), c)
  {
    match step {
      case OfListener(a) =>
      case OfWorker(w, a) => WorkerDecides(cfg, s, w, a, c);
      case OfReactor(a) => ReactorDecides(cfg, s, a, c);
      case OfAgg(a) => AggDecides(cfg, s, a, c);
    }
  }

  // Sources are resumed from the front of the park list, and only when the queue was at its low mark.
  lemma {:induction false} ResumesAtLowMark(cfg: Config, s: State, step: Step)
    requires Enabled(cfg, s, step)
    ensures var s' := Next(cfg, s, step);
            && (s'.agg.ParkPop? && !s.agg.ParkPop? ==> |s.queue| <= cfg.low)
            && (s'.agg.Resume? && !s.agg.Resume? ==>
                  s.agg.ParkPop? && s.park != [] && s'.agg.c == s.park[0] && s'.park == s.park[1..])
  {
  }

  // ---------------------------------------------------------------- the bound

  // Workers that have seen room in the queue and not pushed yet.
  function Pushers(ws: seq<WorkerPc>): nat {
    if ws == [] then 0 else Pushers(ws[..|ws| - 1]) + One(ws[|ws| - 1].Pushing?)
  }

  lemma {:induction false} PushersMove(ws: seq<WorkerPc>, w: nat, pc: WorkerPc)
    requires w < |ws|
    ensures Pushers(ws[w := pc]) == Pushers(ws) - One(ws[w].Pushing?) + One(pc.Pushing?)
  {
    var k := |ws| - 1;
    if w < k {
      PushersMove(ws[..k], w, pc);
      assert ws[w := pc][..k] == ws[..k][w := pc];
    } else {
      assert ws[w := pc][..k] == ws[..k];
    }
  }

  lemma {:induction false} PushersAtMost(ws: seq<WorkerPc>)
    ensures Pushers(ws) <= |ws|
  {
    if ws != [] {
      PushersAtMost(ws[..|ws| - 1]);
    }
  }

  // Threads between looking at the queue size and pushing.
  function Racing(s: State): nat {
    Pushers(s.workers) + One(s.reactor.RPushing?) + One(s.agg.ParkPop? || s.agg.Resume?)
  }

  // Every thread that pushes to the data queue: the workers, the reactor and the aggregator.
  function Threads(s: State): nat {
    |s.workers| + 2
  }

  predicate Bounded(cfg: Config, s: State) {
    |s.queue| + Racing(s) <= cfg.high - 1 + Threads(s)
  }

  // A thread that is not racing leaves room for itself below Threads(s).
  lemma OtherWorkersRace(s: State, w: nat)
    requires w < |s.workers| && !s.workers[w].Pushing?
    ensures Pushers(s.workers) <= |s.workers| - 1
  {
    PushersMove(s.workers, w, Pushing(0));
    PushersAtMost(s.workers[w := Pushing(0)]);
  }

  lemma WorkerBounded(cfg: Config, s: State, w: nat, a: WorkerAct)
    requires Bounded(cfg, s) && WorkerEnabled(cfg, s, w, a)
    ensures Bounded(cfg, WorkerNext(cfg, s, w, a))
  {
    PushersMove(s.workers, w, WorkerNext(cfg, s, w, a).workers[w]);
    if a.MakeRoom? {
      OtherWorkersRace(s, w);
    }
  }

  lemma ReactorBounded(cfg: Config, s: State, a: ReactorAct)
    requires Bounded(cfg, s) && ReactorEnabled(cfg, s, a)
    ensures Bounded(cfg, ReactorNext(cfg, s, a))
  {
    PushersAtMost(s.workers);
  }

  lemma AggBounded(cfg: Config, s: State, a: AggAct)
    requires cfg.low < cfg.high && Bounded(cfg, s) && AggEnabled(cfg, s, a)
    ensures Bounded(cfg, AggNext(cfg, s, a))
  {
    PushersAtMost(s.workers);
  }

  // ---------------------------------------------------------------- wake-ups

  // Somebody has pushed to the data queue and is about to write its eventfd.
  ghost predicate WillWrite(s: State) {
    s.reactor.RNotifying? || exists w :: 0 <= w < |s.workers| && s.workers[w].Notifying?
  }

  ghost predicate Awake(s: State) {
    s.agg.Blocked? && s.sink.Some? && s.queue != [] ==>
      s.wakeups > 0 || WillWrite(s) || (s.outArmed && s.slot.Some?)
  }

  lemma WorkerAwake(cfg: Config, s: State, w: nat, a: WorkerAct)
    requires Awake(s) && WorkerEnabled(cfg, s, w, a)
    ensures Awake(WorkerNext(cfg, s, w, a))
  {
    var s' := WorkerNext(cfg, s, w, a);
    if a.Push? {
      assert s'.workers[w].Notifying?;
    } else if !a.Notify? && WillWrite(s) && !s.reactor.RNotifying? {
      var v :| 0 <= v < |s.workers| && s.workers[v].Notifying?;
      assert s'.workers[v].Notifying?;
    }
  }

  lemma ReactorAwake(cfg: Config, s: State, a: ReactorAct)
    requires Awake(s) && ReactorEnabled(cfg, s, a)
    ensures Awake(ReactorNext(cfg, s, a))
  {
    assert ReactorNext(cfg, s, a).workers == s.workers;
  }

  lemma AggAwake(cfg: Config, s: State, a: AggAct)
    requires Awake(s) && AggEnabled(cfg, s, a)
    ensures Awake(AggNext(cfg, s, a))
  {
  }

  // ---------------------------------------------------------------- every run

  ghost predicate Flowing(cfg: Config, s: State) {
    Bounded(cfg, s) && Awake(s)
  }

  lemma StepFlowing(cfg: Config, s: State, step: Step)
    requires cfg.low < cfg.high && Flowing(cfg, s) && Enabled(cfg, s, step)
    ensures Flowing(cfg, Next(cfg, s, step))
  {
    match step {
      case OfListener(a) => assert ListenerNext(s, a).workers == s.workers;
      case OfWorker(w, a) => WorkerBounded(cfg, s, w, a); WorkerAwake(cfg, s, w, a);
      case OfReactor(a) => ReactorBounded(cfg, s, a); ReactorAwake(cfg, s, a);
      case OfAgg(a) => AggBounded(cfg, s, a); AggAwake(cfg, s, a);
    }
  }

  lemma {:induction false} RunFlowing(cfg: Config, s: State, steps: seq<Step>)
    requires cfg.low < cfg.high && Flowing(cfg, s) && Possible(cfg, s, steps)
    ensures Flowing(cfg, After(cfg, s, steps))
    decreases |steps|
  {
    if steps != [] {
      StepFlowing(cfg, s, steps[0]);
      RunFlowing(cfg, Next(cfg, s, steps[0]), steps[1..]);
    }
  }

  lemma ReachableFlowing(cfg: Config, s: State)
    requires cfg.low < cfg.high && Reachable(cfg, s)
    ensures Flowing(cfg, s)
  {
    var s0, steps :| Init(s0) && Possible(cfg, s0, steps) && After(cfg, s0, steps) == s;
    PushersAtMost(s0.workers);
    RunFlowing(cfg, s0, steps);
  }

  // However the threads interleave, the data queue never holds more than high - 1 messages plus one
  // for each thread that can push to it.
  lemma QueueBound(cfg: Config, s: State)
    requires cfg.low < cfg.high && Reachable(cfg, s)
    ensures |s.queue| <= cfg.high - 1 + Threads(s)
  {
    ReachableFlowing(cfg, s);
  }

  // No lost wake-up: when the aggregator sleeps with a sink and a message to send, it has been
  // notified, is about to be, or waits for the sink to accept the rest of a frame.
  lemma NoLostWakeup(cfg: Config, s: State)
    requires cfg.low < cfg.high && Reachable(cfg, s)
    requires s.agg.Blocked? && s.sink.Some? && s.queue != []
    ensures s.wakeups > 0 || WillWrite(s) || (s.outArmed && s.slot.Some?)
  {
    ReachableFlowing(cfg, s);
  }

  // ---------------------------------------------------------------- left behind

  // Nobody has woken the aggregator or is about to.
  ghost predicate Quiet(s: State) {
    s.wakeups == 0 && s.ctrl == [] && !WillWrite(s)
  }

  // The aggregator sleeps with a sink and nothing to send, a source is parked, and no thread will make it
  // look at the park list again, only a clock (the timeout of epoll_wait, the tick timer) or the sink.
  ghost predicate LeftBehind(s: State) {
    && s.agg.Blocked? && s.sink.Some? && s.slot == None && !s.outArmed && s.queue == []
    && s.park != [] && Quiet(s)
  }

  lemma SameNotifiers(s: State, s': State, w: nat)
    requires w < |s.workers| && |s'.workers| == |s.workers| && s'.workers == s.workers[w := s'.workers[w]]
    requires s'.reactor == s.reactor && s'.workers[w].Notifying? == s.workers[w].Notifying?
    ensures WillWrite(s') == WillWrite(s)
  {
    if WillWrite(s) && !s.reactor.RNotifying? {
      var v :| 0 <= v < |s.workers| && s.workers[v].Notifying?;
      assert s'.workers[v].Notifying?;
    }
    if WillWrite(s') && !s.reactor.RNotifying? {
      var v :| 0 <= v < |s'.workers| && s'.workers[v].Notifying?;
      assert s.workers[v].Notifying?;
    }
  }

  lemma WorkerLeavesBehind(cfg: Config, s: State, w: nat, a: WorkerAct)
    requires WorkerEnabled(cfg, s, w, a) && !LeftBehind(s)
    ensures LeftBehind(WorkerNext(cfg, s, w, a))
       <==> a.Park? && s.agg.Blocked? && !s.outArmed && s.sink.Some? && s.slot == None && s.queue == [] && Quiet(s)
  {
    var s' := WorkerNext(cfg, s, w, a);
    if a.Push? {
      assert s'.workers[w].Notifying?;
    } else if !a.Notify? {
      SameNotifiers(s, s', w);
    }
  }

  lemma AggLeavesBehind(cfg: Config, s: State, a: AggAct)
    requires AggEnabled(cfg, s, a) && !LeftBehind(s)
    ensures LeftBehind(AggNext(cfg, s, a))
       <==> a.PopEmpty? && s.park != [] && s.sink.Some? && s.slot == None && s.queue == [] && Quiet(s)
  {
    assert AggNext(cfg, s, a).workers == s.workers && AggNext(cfg, s, a).reactor == s.reactor;
  }

  lemma ReactorLeavesNobody(cfg: Config, s: State, a: ReactorAct)
    requires ReactorEnabled(cfg, s, a) && !LeftBehind(s)
    ensures !LeftBehind(ReactorNext(cfg, s, a))
  {
    assert ReactorNext(cfg, s, a).workers == s.workers;
  }

  // A step leaves a source behind exactly when a worker parks it after the aggregator's last look at
  // the park list: while the aggregator already sleeps drained, or between that look and its sleep.
  lemma LeftBehindExactlyWhen(cfg: Config, s: State, step: Step)
    requires Enabled(cfg, s, step) && !LeftBehind(s)
    ensures LeftBehind(Next(cfg, s, step))
       <==> s.sink.Some? && s.slot == None && s.queue == [] && Quiet(s)
            && ((step.OfWorker? && step.a.Park? && s.agg.Blocked? && !s.outArmed)
                || (step == OfAgg(PopEmpty) && s.park != []))
  {
    match step {
      case OfListener(a) => assert ListenerNext(s, a).workers == s.workers;
      case OfWorker(w, a) => WorkerLeavesBehind(cfg, s, w, a);
      case OfReactor(a) => ReactorLeavesNobody(cfg, s, a);
      case OfAgg(a) => AggLeavesBehind(cfg, s, a);
    }
  }

  // ---------------------------------------------------------------- waking up for the parked

  // A step of the aggregator alone, with a sink whose socket takes what it is given. Nobody has to
  // write the eventfd for it, because epoll_wait also returns when time has passed.
  predicate Alone(step: Step) {
    && step.OfAgg? && !step.g.FlushBroken? && !step.g.FlushBlocked?
    && (step.g.Wake? ==> !step.g.sinkGone)
  }

  predicate AllAlone(steps: seq<Step>) {
    forall i :: 0 <= i < |steps| ==> Alone(steps[i])
  }

  // The aggregator is on its way to source c, which has waited longest.
  predicate OnTheWay(cfg: Config, s: State, c: nat) {
    && s.sink.Some? && |s.queue| <= cfg.low && Inbound(s, c) && s.srcs[c].pending.Some?
    && match s.agg
       case Resume(d) => d == c
       case Blocked => s.park != [] && s.park[0] == c
       case Ctrl => s.park != [] && s.park[0] == c
       case Flush => s.park != [] && s.park[0] == c
       case Low => s.park != [] && s.park[0] == c
       case ParkPop => s.park != [] && s.park[0] == c
       case _ => false
  }

  // How many steps it still takes.
  function Distance(s: State): nat {
    match s.agg
    case Blocked => 6 + |s.ctrl|
    case Ctrl => 5 + |s.ctrl|
    case Flush => 4
    case Low => 3
    case ParkPop => 2
    case _ => 1
  }

  // Who is parked behind c.
  function Behind(s: State): seq<nat> {
    if s.agg.Resume? || s.park == [] then s.park else s.park[1..]
  }

  lemma StepOnTheWay(cfg: Config, s: State, step: Step, c: nat)
    requires OnTheWay(cfg, s, c) && Alone(step) && Enabled(cfg, s, step) && Distance(s) > 1
    ensures var s' := Next(cfg, s, step);
            && OnTheWay(cfg, s', c) && Distance(s') == Distance(s) - 1
            && s'.queue == s.queue && Behind(s') == Behind(s) && s'.srcs[c].pending == s.srcs[c].pending
  {
  }

  function NextAlone(s: State): Step {
    match s.agg
    case Blocked => OfAgg(Wake(false, false))
    case Ctrl => OfAgg(if s.ctrl != [] then Adopt else CtrlEmpty)
    case Flush => OfAgg(FlushDone)
    case Low => OfAgg(LowYes)
    case ParkPop => OfAgg(ParkTake)
    case _ => OfAgg(ResumePush)
  }

  lemma GoesOn(cfg: Config, s: State, c: nat)
    requires OnTheWay(cfg, s, c)
    ensures Alone(NextAlone(s)) && Enabled(cfg, s, NextAlone(s))
  {
  }

  ghost predicate Resumed(s: State, s': State, c: nat)
    requires c < |s.srcs| && s.srcs[c].pending.Some?
  {
    s'.queue == s.queue + [Item(c, s.srcs[c].pending.value)] && s'.park == Behind(s)
  }

  lemma {:induction false} AloneResumes(cfg: Config, s: State, steps: seq<Step>, c: nat)
    requires OnTheWay(cfg, s, c) && AllAlone(steps) && Possible(cfg, s, steps) && |steps| == Distance(s)
    ensures Resumed(s, After(cfg, s, steps), c)
    decreases |steps|
  {
    assert Alone(steps[0]);
    var s' := Next(cfg, s, steps[0]);
    if |steps| == 1 {
      assert s.agg == Resume(c);
      assert After(cfg, s', steps[1..]) == s';
    } else {
      StepOnTheWay(cfg, s, steps[0], c);
      AloneResumes(cfg, s', steps[1..], c);
    }
  }

  lemma {:induction false} AloneRuns(cfg: Config, s: State, c: nat) returns (steps: seq<Step>)
    requires OnTheWay(cfg, s, c)
    ensures AllAlone(steps) && Possible(cfg, s, steps) && |steps| == Distance(s)
    decreases Distance(s)
  {
    GoesOn(cfg, s, c);
    var step := NextAlone(s);
    var rest := [];
    if Distance(s) > 1 {
      StepOnTheWay(cfg, s, step, c);
      rest := AloneRuns(cfg, Next(cfg, s, step), c);
    }
    steps := [step] + rest;
    assert steps[1..] == rest;
  }

  // From any reachable sleep with a sink, a parked source and a drained queue, the timeout is enough:
  // if nobody else moves and the sink's socket takes what it is given, the aggregator resumes the
  // source that has waited longest in six steps, and one more for each new sink, whatever they are.
  lemma TimeoutResumes(cfg: Config, s: State)
    requires Reachable(cfg, s) && s.agg.Blocked? && s.sink.Some? && s.park != [] && |s.queue| <= cfg.low
    ensures var c := s.park[0];
            && Inbound(s, c) && s.srcs[c].pending.Some?
            && (exists steps :: AllAlone(steps) && Possible(cfg, s, steps) && |steps| == 6 + |s.ctrl|)
            && forall steps :: AllAlone(steps) && Possible(cfg, s, steps) && |steps| == 6 + |s.ctrl| ==>
                 Resumed(s, After(cfg, s, steps), c)
  {
    ReachableTracked(cfg, s);
    var c := s.park[0];
    assert c in multiset(s.park);
    assert Owned(s, c) && Tracked(s, c);
    var some := AloneRuns(cfg, s, c);
    forall steps | AllAlone(steps) && Possible(cfg, s, steps) && |steps| == 6 + |s.ctrl|
      ensures Resumed(s, After(cfg, s, steps), c)
    {
      AloneResumes(cfg, s, steps, c);
    }
  }
}
