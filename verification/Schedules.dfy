// Runs that show what the threads can really do to each other. In the smallest server (one listener,
// one worker, low mark 0, high mark 1) a source can be left parked while the aggregator sleeps, two
// threads can share a connection, and a resumed connection can be lost to its epoll set; in every
// server the bound on the data queue is reached.
module Schedules {
  import opened Bytes
  import opened Protocol
  import opened Ownership
  import opened Flow

  const SMALL := Config(0, 1)

  const START := State([], [None], [], [Idle], RIdle, [], 0, [], [], Ctrl, None, false, None, [])

  lemma {:induction false} PossibleAdd(cfg: Config, s: State, steps: seq<Step>, step: Step)
    requires Possible(cfg, s, steps) && Enabled(cfg, After(cfg, s, steps), step)
    ensures Possible(cfg, s, steps + [step])
    ensures After(cfg, s, steps + [step]) == Next(cfg, After(cfg, s, steps), step)
    decreases |steps|
  {
    if steps == [] {
      assert [step][1..] == [];
    } else {
      PossibleAdd(cfg, Next(cfg, s, steps[0]), steps[1..], step);
      assert (steps + [step])[1..] == steps[1..] + [step];
    }
  }

  lemma Reach(cfg: Config, s: State, step: Step) returns (s': State)
    requires Reachable(cfg, s) && Enabled(cfg, s, step)
    ensures s' == Next(cfg, s, step) && Reachable(cfg, s')
  {
    s' := Next(cfg, s, step);
    var s0, steps :| Init(s0) && Possible(cfg, s0, steps) && After(cfg, s0, steps) == s;
    PossibleAdd(cfg, s0, steps, step);
  }

  lemma StartReachable()
    ensures Reachable(SMALL, START)
  {
    assert Init(START) && Possible(SMALL, START, []) && After(SMALL, START, []) == START;
  }

  // A new connection is accepted, becomes readable and is taken by worker w.
  lemma Arrives(cfg: Config, s: State, w: nat) returns (s': State)
    requires Reachable(cfg, s) && s.listeners == [None] && s.workq == [] && w < |s.workers| && s.workers[w] == Idle
    ensures Reachable(cfg, s')
    ensures s' == s.(srcs := s.srcs + [FRESH.(armed := false)], workers := s.workers[w := Hold(|s.srcs|)])
  {
    var c := |s.srcs|;
    var s2 := Readable(cfg, s);
    var s3 := Reach(cfg, s2, OfListener(Enqueue(0)));
    assert s3 == s.(srcs := s.srcs + [FRESH.(armed := false)], workq := [c]);
    s' := Reach(cfg, s3, OfWorker(w, WorkerAct.Take));
  }

  lemma Readable(cfg: Config, s: State) returns (s': State)
    requires Reachable(cfg, s) && s.listeners == [None]
    ensures Reachable(cfg, s')
    ensures s' == s.(srcs := s.srcs + [FRESH.(armed := false)], listeners := [Some(|s.srcs|)])
  {
    var s1 := Reach(cfg, s, OfListener(Accept));
    s' := Reach(cfg, s1, OfListener(Event(0, |s.srcs|)));
  }

  const GONE := FRESH.(registered := false, armed := false)

  // Connection 0 becomes the sink, connection 1 is with the worker.
  lemma SinkAndSource() returns (s: State)
    ensures Reachable(SMALL, s)
    ensures s == START.(srcs := [GONE, FRESH.(armed := false)], workers := [Hold(1)], sink := Some(0), agg := Flush)
  {
    StartReachable();
    var s1 := Arrives(SMALL, START, 0);
    var s2 := Reach(SMALL, s1, OfWorker(0, HandOff));
    var s3 := Reach(SMALL, s2, OfWorker(0, PushCtrl));
    var s4 := Reach(SMALL, s3, OfAgg(Adopt));
    var s5 := Reach(SMALL, s4, OfAgg(CtrlEmpty));
    assert s5.srcs == [GONE];
    s := Arrives(SMALL, s5, 0);
  }

  const SENT := FRESH.(armed := false, made := 1, kept := [0])
  const FULL := FRESH.(armed := false, made := 2, kept := [0, 1], pending := Some(1))

  lemma FirstPushed() returns (s: State)
    ensures Reachable(SMALL, s)
    ensures s == START.(srcs := [GONE, SENT], workers := [Hold(1)], sink := Some(0), agg := Flush, wakeups := 1,
                        queue := [Item(1, 0)])
  {
    var s0 := SinkAndSource();
    var s1 := Reach(SMALL, s0, OfWorker(0, MakeRoom));
    assert s1.srcs[1] == SENT.(hand := Some(0));
    var s2 := Reach(SMALL, s1, OfWorker(0, WorkerAct.Push));
    assert s2.srcs == [GONE, SENT];
    s := Reach(SMALL, s2, OfWorker(0, Notify));
  }

  // The worker pushes the first message of connection 1, finds the queue full at the second, and is
  // about to park it when the aggregator has sent the first and is ready to look again.
  lemma AboutToPark() returns (s: State)
    ensures Reachable(SMALL, s)
    ensures s == START.(srcs := [GONE, FULL], workers := [Parking(1)], sink := Some(0), agg := Low, wakeups := 1,
                        done := [Done(Item(1, 0), true)])
  {
    var s3 := FirstPushed();
    var s4 := Reach(SMALL, s3, OfWorker(0, MakeFull));
    assert s4.srcs[1].kept == [0, 1];
    assert s4.srcs == [GONE, FULL];
    s := Drained(s4);
  }

  lemma Drained(s: State) returns (s': State)
    requires Reachable(SMALL, s) && |s.queue| == 1 && s.agg == Flush && s.sink.Some? && s.slot == None
    ensures Reachable(SMALL, s')
    ensures s' == s.(queue := [], agg := Low, done := s.done + [Done(s.queue[0], true)])
  {
    var s1 := Reach(SMALL, s, OfAgg(FlushDone));
    assert s1 == s.(agg := Low) by {
      assert s.done + [] == s.done;
    }
    var s2 := Reach(SMALL, s1, OfAgg(LowNo));
    var s3 := Reach(SMALL, s2, OfAgg(AggAct.Pop));
    assert s3 == s.(agg := Flush, queue := [], slot := Some(s.queue[0]));
    s' := Reach(SMALL, s3, OfAgg(FlushDone));
  }

  // Parked, and taken off the park list by the aggregator.
  lemma AboutToResume() returns (s: State)
    ensures Reachable(SMALL, s)
    ensures s == START.(srcs := [GONE, FULL], workers := [Leaving(1)], sink := Some(0), agg := Resume(1), wakeups := 1,
                        done := [Done(Item(1, 0), true)])
  {
    var s0 := AboutToPark();
    var s1 := Reach(SMALL, s0, OfWorker(0, WorkerAct.Park));
    var s2 := Reach(SMALL, s1, OfAgg(LowYes));
    s := Reach(SMALL, s2, OfAgg(ParkTake));
  }

  // Here two threads have connection 1: the worker is about to remove it from epoll, and the
  // aggregator is resuming it.
  lemma TwoThreadsShare()
    ensures exists s :: Reachable(SMALL, s) && ThreadsWith(s, 1) == 2 && s.workers == [Leaving(1)] && s.agg == Resume(1)
  {
    var s := AboutToResume();
    SharedExactlyWhen(SMALL, s, 1);
    assert s.workers[0] == Leaving(1);
  }

  // The aggregator re-registers the connection before the worker that parked it has removed it: the
  // registration fails, the removal then succeeds, and nothing ever arms the connection again.
  lemma ResumedConnectionCanBeStranded()
    ensures exists s ::
              Reachable(SMALL, s) && Inbound(s, 1) && s.srcs[1].stranded && !s.srcs[1].closed && !s.srcs[1].registered
  {
    var s0 := AboutToResume();
    var s1 := Reach(SMALL, s0, OfAgg(ResumePush));
    var s2 := Reach(SMALL, s1, OfAgg(ResumeWrite));
    var s3 := Reach(SMALL, s2, OfAgg(ResumeArm));
    var s4 := Reach(SMALL, s3, OfWorker(0, WorkerAct.Leave));
    assert Inbound(s4, 1) && s4.srcs[1].stranded;
  }

  // A source can be parked while the aggregator sleeps with an empty queue and no thread about to wake
  // it: the worker finds the queue full, the aggregator drains it, finds no one parked, and
  // sleeps before the worker enters the park list.
  lemma ParkedWhileAsleep()
    ensures exists s :: Reachable(SMALL, s) && LeftBehind(s)
  {
    var s0 := AboutToPark();
    var s1 := Emptied(s0);
    var s2 := Reach(SMALL, s1, OfAgg(Wake(true, false)));
    var s3 := Reach(SMALL, s2, OfAgg(CtrlEmpty));
    var s4 := Reach(SMALL, s3, OfAgg(FlushDone));
    var s5 := Emptied(s4);
    var s6 := Reach(SMALL, s5, OfWorker(0, WorkerAct.Park));
    assert s6.workers == [Leaving(1)];
  }

  lemma Emptied(s: State) returns (s': State)
    requires Reachable(SMALL, s) && s.queue == [] && s.park == [] && s.agg == Low
    ensures Reachable(SMALL, s') && s' == s.(agg := Blocked, outArmed := false)
  {
    var s1 := Reach(SMALL, s, OfAgg(LowYes));
    var s2 := Reach(SMALL, s1, OfAgg(ParkEmpty));
    s' := Reach(SMALL, s2, OfAgg(PopEmpty));
  }

  // ---------------------------------------------------------------- the bound on the data queue

  // A server with n workers, at its start.
  function StartWith(n: nat): State {
    START.(workers := seq(n, _ => Idle))
  }

  lemma StartsReachable(cfg: Config, n: nat)
    ensures Reachable(cfg, StartWith(n))
  {
    var s := StartWith(n);
    assert Init(s) && Possible(cfg, s, []) && After(cfg, s, []) == s;
  }

  // The listener and the reactor are idle, and so are the workers from the k-th on.
  ghost predicate IdleFrom(s: State, n: nat, k: nat) {
    && s.listeners == [None] && s.workq == [] && s.reactor == RIdle && |s.workers| == n
    && forall w :: k <= w < n ==> s.workers[w] == Idle
  }

  // Connection 0 becomes the sink of the aggregator.
  lemma GetsSink(cfg: Config, n: nat) returns (s: State)
    requires n > 0
    ensures Reachable(cfg, s) && IdleFrom(s, n, 0) && s.agg == Flush && s.sink.Some?
    ensures s.slot == None && s.park == [] && s.queue == []
  {
    StartsReachable(cfg, n);
    var s1 := Arrives(cfg, StartWith(n), 0);
    var s2 := Reach(cfg, s1, OfWorker(0, HandOff));
    var s3 := Reach(cfg, s2, OfWorker(0, PushCtrl));
    var s4 := Reach(cfg, s3, OfAgg(Adopt));
    s := Reach(cfg, s4, OfAgg(CtrlEmpty));
  }

  // What pushing to the queue for connection c leaves alone.
  ghost predicate OnlyQueue(s: State, s': State, c: nat) {
    && s' == s.(srcs := s'.srcs, queue := s'.queue, wakeups := s'.wakeups)
    && Inbound(s', c) && c < |s.srcs| == |s'.srcs| && s'.srcs == s.srcs[c := s'.srcs[c]]
  }

  lemma SeesRoom(cfg: Config, s: State, w: nat, c: nat) returns (s': State)
    requires Reachable(cfg, s) && w < |s.workers| && s.workers[w] == Hold(c) && Inbound(s, c) && |s.queue| < cfg.high
    ensures Reachable(cfg, s') && s' == s.(srcs := s'.srcs, workers := s.workers[w := Pushing(c)])
    ensures |s'.srcs| == |s.srcs| && s'.srcs == s.srcs[c := s'.srcs[c]] && Inbound(s', c) && s'.srcs[c].hand.Some?
  {
    s' := Reach(cfg, s, OfWorker(w, MakeRoom));
  }

  lemma PushesOne(cfg: Config, s: State, w: nat, c: nat) returns (s': State)
    requires Reachable(cfg, s) && w < |s.workers| && s.workers[w] == Hold(c) && Inbound(s, c) && |s.queue| < cfg.high
    ensures Reachable(cfg, s') && OnlyQueue(s, s', c) && |s'.queue| == |s.queue| + 1
  {
    var s1 := SeesRoom(cfg, s, w, c);
    var s2 := Reach(cfg, s1, OfWorker(w, WorkerAct.Push));
    s' := Reach(cfg, s2, OfWorker(w, Notify));
    assert s'.workers == s.workers[w := Pushing(c)][w := Notifying(c)][w := Hold(c)];
  }

  // A worker pushes message after message until the queue holds k.
  lemma {:induction false} Fills(cfg: Config, s: State, w: nat, c: nat, k: nat) returns (s': State)
    requires Reachable(cfg, s) && w < |s.workers| && s.workers[w] == Hold(c) && Inbound(s, c)
             && |s.queue| <= k <= cfg.high
    ensures Reachable(cfg, s') && OnlyQueue(s, s', c) && |s'.queue| == k
    decreases k - |s.queue|
  {
    if |s.queue| == k {
      s' := s;
    } else {
      var s1 := PushesOne(cfg, s, w, c);
      s' := Fills(cfg, s1, w, c, k);
    }
  }

  // ... and then finds it full and parks its connection.
  lemma Parks(cfg: Config, s: State, w: nat, c: nat) returns (s': State)
    requires Reachable(cfg, s) && w < |s.workers| && s.workers[w] == Hold(c) && Inbound(s, c) && |s.queue| >= cfg.high
    ensures Reachable(cfg, s') && s' == s.(srcs := s'.srcs, park := s.park + [c], workers := s.workers[w := Idle])
    ensures |s'.srcs| == |s.srcs| && Inbound(s', c) && s'.srcs[c].pending.Some?
  {
    var s1 := Reach(cfg, s, OfWorker(w, MakeFull));
    var s2 := Reach(cfg, s1, OfWorker(w, WorkerAct.Park));
    s' := Reach(cfg, s2, OfWorker(w, Leave));
  }

  ghost predicate OnlyAgg(s: State, s': State) {
    s' == s.(queue := s'.queue, slot := s'.slot, done := s'.done, park := s'.park, agg := s'.agg)
  }

  // The aggregator sends until the queue is at its low mark, and takes the parked connection.
  lemma {:induction false} Drains(cfg: Config, s: State, c: nat) returns (s': State)
    requires Reachable(cfg, s) && s.agg == Flush && s.sink.Some? && s.park == [c]
    ensures Reachable(cfg, s') && OnlyAgg(s, s') && s'.agg == Resume(c) && |s'.queue| <= cfg.low
    decreases |s.queue|
  {
    var s1 := Reach(cfg, s, OfAgg(FlushDone));
    if |s.queue| <= cfg.low {
      var s2 := Reach(cfg, s1, OfAgg(LowYes));
      s' := Reach(cfg, s2, OfAgg(ParkTake));
    } else {
      var s2 := Reach(cfg, s1, OfAgg(LowNo));
      var s3 := Reach(cfg, s2, OfAgg(AggAct.Pop));
      s' := Drains(cfg, s3, c);
    }
  }

  // The aggregator has seen a queue at its low mark and is about to push the message of connection c.
  ghost predicate AboutToResumeOne(s: State, c: nat) {
    s.agg == Resume(c) && Inbound(s, c) && s.srcs[c].pending.Some?
  }

  lemma AggRaces(cfg: Config, n: nat) returns (s: State, c: nat)
    requires cfg.low < cfg.high && n > 0
    ensures Reachable(cfg, s) && IdleFrom(s, n, 0) && AboutToResumeOne(s, c) && |s.queue| <= cfg.low
  {
    var s0 := GetsSink(cfg, n);
    c := |s0.srcs|;
    var s1 := Arrives(cfg, s0, 0);
    var s2 := Fills(cfg, s1, 0, c, cfg.high);
    var s3 := Parks(cfg, s2, 0, c);
    s := Drains(cfg, s3, c);
  }

  // The first k workers have seen room in the queue and are about to push, each for a connection of
  // its own.
  ghost predicate Racers(s: State, k: nat) {
    && k <= |s.workers|
    && (forall w :: 0 <= w < k ==>
          s.workers[w].Pushing? && Inbound(s, s.workers[w].c) && s.srcs[s.workers[w].c].hand.Some?)
    && forall v, w :: 0 <= v < w < k ==> s.workers[v].c != s.workers[w].c
  }

  // One more worker takes a new connection, pushes for it until the queue holds m, sees room once more,
  // and is about to push.
  lemma Joins(cfg: Config, s: State, n: nat, k: nat, m: nat, c: nat) returns (s': State)
    requires Reachable(cfg, s) && IdleFrom(s, n, k) && k < n && Racers(s, k) && AboutToResumeOne(s, c)
    requires |s.queue| <= m < cfg.high
    ensures Reachable(cfg, s') && IdleFrom(s', n, k + 1) && Racers(s', k + 1) && AboutToResumeOne(s', c)
    ensures |s'.queue| == m
  {
    var s1 := Arrives(cfg, s, k);
    var s2 := Fills(cfg, s1, k, |s.srcs|, m);
    s' := SeesRoom(cfg, s2, k, |s.srcs|);
  }

  lemma {:induction false} AllJoin(cfg: Config, s: State, n: nat, k: nat, m: nat, c: nat) returns (s': State)
    requires Reachable(cfg, s) && IdleFrom(s, n, k) && k < n && Racers(s, k) && AboutToResumeOne(s, c)
    requires |s.queue| <= m < cfg.high
    ensures Reachable(cfg, s') && IdleFrom(s', n, n) && Racers(s', n) && AboutToResumeOne(s', c)
    ensures |s'.queue| == m
    decreases n - k
  {
    s' := Joins(cfg, s, n, k, m, c);
    if k + 1 < n {
      s' := AllJoin(cfg, s', n, k + 1, m, c);
    }
  }

  // The reactor joins for an upstream client u.
  lemma ReactorJoins(cfg: Config, s: State, n: nat, c: nat) returns (s': State, u: nat)
    requires Reachable(cfg, s) && IdleFrom(s, n, n) && Racers(s, n) && AboutToResumeOne(s, c) && |s.queue| < cfg.high
    ensures Reachable(cfg, s') && |s'.workers| == n && Racers(s', n) && AboutToResumeOne(s', c)
    ensures s'.queue == s.queue && s'.reactor == RPushing(u) && Upstream(s', u) && s'.srcs[u].hand.Some?
  {
    u := |s.srcs|;
    var s1 := Reach(cfg, s, OfReactor(AddUpstream));
    s' := Reach(cfg, s1, OfReactor(UMakeRoom(u)));
  }

  lemma {:induction false} AllPush(cfg: Config, s: State, k: nat, c: nat, u: nat) returns (s': State)
    requires Reachable(cfg, s) && Racers(s, k) && AboutToResumeOne(s, c)
    requires s.reactor == RPushing(u) && Upstream(s, u) && s.srcs[u].hand.Some?
    ensures Reachable(cfg, s') && |s'.workers| == |s.workers| && AboutToResumeOne(s', c)
    ensures s'.reactor == RPushing(u) && Upstream(s', u) && s'.srcs[u].hand.Some?
    ensures |s'.queue| == |s.queue| + k
    decreases k
  {
    if k == 0 {
      s' := s;
    } else {
      var s1 := Reach(cfg, s, OfWorker(k - 1, WorkerAct.Push));
      s' := AllPush(cfg, s1, k - 1, c, u);
    }
  }

  // The bound on the data queue is exact in every server that has a worker: all its workers, the
  // reactor and the aggregator can see room for one message and then all push one.
  lemma QueueBoundIsReached(cfg: Config, n: nat)
    requires cfg.low < cfg.high && n > 0
    ensures exists s :: Reachable(cfg, s) && |s.workers| == n && |s.queue| == cfg.high - 1 + Threads(s)
  {
    var s1, c := AggRaces(cfg, n);
    var s2 := AllJoin(cfg, s1, n, 0, cfg.high - 1, c);
    var s3, u := ReactorJoins(cfg, s2, n, c);
    var s4 := AllPush(cfg, s3, n, c, u);
    var s5 := Reach(cfg, s4, OfReactor(UPush));
    var s6 := Reach(cfg, s5, OfAgg(ResumePush));
    assert |s6.queue| == cfg.high - 1 + n + 2;
  }
}
