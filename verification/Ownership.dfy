// Exclusive ownership of inbound connections, in every run: the repository promises (README.md:314-316)
// that at most one thread works with a connection at any moment. It is so, except exactly when a
// connection is resumed that the worker which parked it has not removed from epoll yet.
module Ownership {
  import opened Bytes
  import opened Protocol

  // ---------------------------------------------------------------- who holds a connection

  function One(b: bool): nat {
    if b then 1 else 0
  }

  // Workers that run a handler on c, up to parking it or handing it over. A worker that has parked c
  // and is about to remove it from epoll is counted apart (Leavers): c is in the park list by then.
  function AtWorkers(s: State, c: nat): nat {
    var ws := multiset(s.workers);
    ws[Hold(c)] + ws[Pushing(c)] + ws[Notifying(c)] + ws[Parking(c)]
  }

  function Leavers(s: State, c: nat): nat {
    multiset(s.workers)[Leaving(c)]
  }

  // Places on the way from epoll to a worker and back.
  function Ingest(s: State, c: nat): nat {
    One(c < |s.srcs| && s.srcs[c].armed) + multiset(s.listeners)[Some(c)] + multiset(s.workq)[c] + AtWorkers(s, c)
  }

  // Parked, or in the hands of the aggregator for resumption.
  function Away(s: State, c: nat): nat {
    multiset(s.park)[c] + One(s.agg == Resume(c)) + One(s.agg == ResumeNotify(c)) + One(s.agg == ResumeAdd(c))
  }

  // On the way to the aggregator as a sink, or the sink.
  function AsSink(s: State, c: nat): nat {
    multiset(s.workers)[HandingOff(c)] + multiset(s.ctrl)[c] + One(s.sink == Some(c))
  }

  function Holders(s: State, c: nat): nat {
    Ingest(s, c) + Away(s, c) + AsSink(s, c)
  }

  predicate Alive(s: State, c: nat) {
    Inbound(s, c) && !s.srcs[c].closed && !s.srcs[c].stranded
  }

  // The invariant, connection by connection.
  ghost predicate Owned(s: State, c: nat) {
    // exactly one holder while alive, none otherwise
    && Holders(s, c) == One(Alive(s, c))
    // at most one worker is about to remove c from epoll, and then c is parked, being resumed, or stranded
    && Leavers(s, c) <= 1
    && (Leavers(s, c) == 1 ==> Inbound(s, c) && !s.srcs[c].closed && Ingest(s, c) == 0 && AsSink(s, c) == 0)
    // c is in epoll exactly on the ingest path and until that removal
    && (c < |s.srcs| ==> (s.srcs[c].registered <==> Ingest(s, c) == 1 || Leavers(s, c) == 1))
  }

  ghost predicate AllOwned(s: State) {
    forall c: nat :: Owned(s, c)
  }

  lemma InitOwned(s: State)
    requires Init(s)
    ensures AllOwned(s)
  {
    forall c: nat ensures Owned(s, c) {
      assert forall pc :: pc in multiset(s.workers) ==> pc == Idle;
      assert Some(c) !in s.listeners;
    }
  }

  // ---------------------------------------------------------------- counting

  lemma Pulled<T>(q: seq<T>)
    requires q != []
    ensures multiset(q) == multiset{q[0]} + multiset(q[1..])
  {
    assert q == [q[0]] + q[1..];
  }

  // Replacing one element moves one unit between two counts.
  lemma Replaced<T>(q: seq<T>, i: nat, y: T, x: T)
    requires i < |q|
    ensures multiset(q[i := y])[x] == multiset(q)[x] - One(q[i] == x) + One(y == x)
    ensures q[i] == x ==> multiset(q)[x] >= 1
  {
    assert multiset(q[i := y]) == multiset(q) - multiset{q[i]} + multiset{y};
    assert q[i] in multiset(q);
  }

  lemma MovedWorker(s: State, w: nat, pc: WorkerPc, c: nat)
    requires w < |s.workers|
    ensures var s' := SetPc(s, w, pc);
            var old_ := s.workers[w];
            && AtWorkers(s', c) == AtWorkers(s, c) - One(Working(old_, c)) + One(Working(pc, c))
            && (Working(old_, c) ==> AtWorkers(s, c) >= 1)
            && Leavers(s', c) == Leavers(s, c) - One(old_ == Leaving(c)) + One(pc == Leaving(c))
            && (old_ == Leaving(c) ==> Leavers(s, c) >= 1)
            && multiset(s'.workers)[HandingOff(c)]
               == multiset(s.workers)[HandingOff(c)] - One(old_ == HandingOff(c)) + One(pc == HandingOff(c))
            && (old_ == HandingOff(c) ==> multiset(s.workers)[HandingOff(c)] >= 1)
  {
    Replaced(s.workers, w, pc, Hold(c));
    Replaced(s.workers, w, pc, Pushing(c));
    Replaced(s.workers, w, pc, Notifying(c));
    Replaced(s.workers, w, pc, Parking(c));
    Replaced(s.workers, w, pc, Leaving(c));
    Replaced(s.workers, w, pc, HandingOff(c));
  }

  predicate Working(pc: WorkerPc, c: nat) {
    pc == Hold(c) || pc == Pushing(c) || pc == Notifying(c) || pc == Parking(c)
  }

  // Ownership looks only at these parts of the state.
  ghost predicate SameFlags(x: Source, y: Source) {
    && y.upstream == x.upstream && y.registered == x.registered && y.armed == x.armed
    && y.closed == x.closed && y.stranded == x.stranded
  }

  ghost predicate SameSource(s: State, s': State, c: nat) {
    if c < |s.srcs| then c < |s'.srcs| && SameFlags(s.srcs[c], s'.srcs[c])
    else c < |s'.srcs| ==> s'.srcs[c] == UPSTREAM
  }

  ghost predicate SameHolders(s: State, s': State, c: nat) {
    && s'.listeners == s.listeners && s'.workq == s.workq && s'.workers == s.workers && s'.park == s.park
    && s'.ctrl == s.ctrl && s'.sink == s.sink
    && (s'.agg == s.agg || !(Resuming(s.agg) || Resuming(s'.agg)))
    && SameSource(s, s', c)
  }

  predicate Resuming(g: AggPc) {
    g.Resume? || g.ResumeNotify? || g.ResumeAdd?
  }

  lemma SameOwned(s: State, s': State, c: nat)
    requires Owned(s, c) && SameHolders(s, s', c)
    ensures Owned(s', c)
  {
  }

  lemma TakeOwned(cfg: Config, s: State, w: nat, c: nat)
    requires Owned(s, c) && WorkerEnabled(cfg, s, w, WorkerAct.Take)
    ensures Owned(WorkerNext(cfg, s, w, WorkerAct.Take), c)
  {
    MovedWorker(s, w, WorkerNext(cfg, s, w, WorkerAct.Take).workers[w], c);
    Pulled(s.workq);
  }

  lemma ParkOwned(cfg: Config, s: State, w: nat, c: nat)
    requires Owned(s, c) && WorkerEnabled(cfg, s, w, WorkerAct.Park)
    ensures Owned(WorkerNext(cfg, s, w, WorkerAct.Park), c)
  {
    MovedWorker(s, w, WorkerNext(cfg, s, w, WorkerAct.Park).workers[w], c);
  }

  lemma LeaveOwned(cfg: Config, s: State, w: nat, c: nat)
    requires Owned(s, c) && WorkerEnabled(cfg, s, w, WorkerAct.Leave)
    ensures Owned(WorkerNext(cfg, s, w, WorkerAct.Leave), c)
  {
    MovedWorker(s, w, WorkerNext(cfg, s, w, WorkerAct.Leave).workers[w], c);
  }

  lemma RearmOwned(cfg: Config, s: State, w: nat, c: nat)
    requires Owned(s, c) && WorkerEnabled(cfg, s, w, WorkerAct.Rearm)
    ensures Owned(WorkerNext(cfg, s, w, WorkerAct.Rearm), c)
  {
    MovedWorker(s, w, WorkerNext(cfg, s, w, WorkerAct.Rearm).workers[w], c);
  }

  lemma CloseConnOwned(cfg: Config, s: State, w: nat, c: nat)
    requires Owned(s, c) && WorkerEnabled(cfg, s, w, WorkerAct.CloseConn)
    ensures Owned(WorkerNext(cfg, s, w, WorkerAct.CloseConn), c)
  {
    MovedWorker(s, w, WorkerNext(cfg, s, w, WorkerAct.CloseConn).workers[w], c);
  }

  lemma HandOffOwned(cfg: Config, s: State, w: nat, c: nat)
    requires Owned(s, c) && WorkerEnabled(cfg, s, w, WorkerAct.HandOff)
    ensures Owned(WorkerNext(cfg, s, w, WorkerAct.HandOff), c)
  {
    MovedWorker(s, w, WorkerNext(cfg, s, w, WorkerAct.HandOff).workers[w], c);
  }

  lemma PushCtrlOwned(cfg: Config, s: State, w: nat, c: nat)
    requires Owned(s, c) && WorkerEnabled(cfg, s, w, WorkerAct.PushCtrl)
    ensures Owned(WorkerNext(cfg, s, w, WorkerAct.PushCtrl), c)
  {
    MovedWorker(s, w, WorkerNext(cfg, s, w, WorkerAct.PushCtrl).workers[w], c);
  }

  // A worker that goes on with the connection it has.
  ghost predicate KeepsWorking(s: State, s': State, w: nat, d: nat, c: nat) {
    && w < |s.workers| && |s'.workers| == |s.workers| && s'.workers == s.workers[w := s'.workers[w]]
    && Working(s.workers[w], d) && Working(s'.workers[w], d)
    && s'.listeners == s.listeners && s'.workq == s.workq && s'.park == s.park
    && s'.ctrl == s.ctrl && s'.sink == s.sink && s'.agg == s.agg
    && SameSource(s, s', c)
  }

  lemma StillWorkingOwned(s: State, s': State, w: nat, d: nat, c: nat)
    requires Owned(s, c) && KeepsWorking(s, s', w, d, c)
    ensures Owned(s', c)
  {
    MovedWorker(s, w, s'.workers[w], c);
  }

  lemma MessageKeepsWorking(cfg: Config, s: State, w: nat, a: WorkerAct, c: nat)
    requires WorkerEnabled(cfg, s, w, a) && (a.MakeRoom? || a.MakeFull? || a.Push? || a.Notify?)
    ensures KeepsWorking(s, WorkerNext(cfg, s, w, a), w, s.workers[w].c, c)
  {
  }

  lemma WorkerOwned(cfg: Config, s: State, w: nat, a: WorkerAct, c: nat)
    requires Owned(s, c) && WorkerEnabled(cfg, s, w, a)
    ensures Owned(WorkerNext(cfg, s, w, a), c)
  {
    match a {
      case Take => TakeOwned(cfg, s, w, c);
      case Park => ParkOwned(cfg, s, w, c);
      case Leave => LeaveOwned(cfg, s, w, c);
      case Rearm => RearmOwned(cfg, s, w, c);
      case CloseConn => CloseConnOwned(cfg, s, w, c);
      case HandOff => HandOffOwned(cfg, s, w, c);
      case PushCtrl => PushCtrlOwned(cfg, s, w, c);
      case _ =>
        MessageKeepsWorking(cfg, s, w, a, c);
        StillWorkingOwned(s, WorkerNext(cfg, s, w, a), w, s.workers[w].c, c);
    }
  }

  lemma EventOwned(s: State, i: nat, d: nat, c: nat)
    requires Owned(s, c) && ListenerEnabled(s, Event(i, d))
    ensures Owned(ListenerNext(s, Event(i, d)), c)
  {
    Replaced(s.listeners, i, Some(d), Some(c));
  }

  lemma EnqueueOwned(s: State, i: nat, c: nat)
    requires Owned(s, c) && ListenerEnabled(s, Enqueue(i))
    ensures Owned(ListenerNext(s, Enqueue(i)), c)
  {
    Replaced(s.listeners, i, None, Some(c));
  }

  lemma AcceptOwned(s: State, c: nat)
    requires Owned(s, c)
    ensures Owned(ListenerNext(s, Accept), c)
  {
  }

  lemma ListenerOwned(s: State, a: ListenerAct, c: nat)
    requires Owned(s, c) && ListenerEnabled(s, a)
    ensures Owned(ListenerNext(s, a), c)
  {
    match a {
      case Accept => AcceptOwned(s, c);
      case Event(i, d) => EventOwned(s, i, d, c);
      case Enqueue(i) => EnqueueOwned(s, i, c);
    }
  }

  lemma ReactorKeepsHolders(cfg: Config, s: State, a: ReactorAct, c: nat)
    requires ReactorEnabled(cfg, s, a)
    ensures SameHolders(s, ReactorNext(cfg, s, a), c)
  {
  }

  lemma ReactorOwned(cfg: Config, s: State, a: ReactorAct, c: nat)
    requires Owned(s, c) && ReactorEnabled(cfg, s, a)
    ensures Owned(ReactorNext(cfg, s, a), c)
  {
    ReactorKeepsHolders(cfg, s, a, c);
    SameOwned(s, ReactorNext(cfg, s, a), c);
  }

  // Closing the sink releases its connection and nobody else's.
  lemma CloseSinkOwned(s: State, c: nat)
    requires Owned(s, c)
    ensures Owned(CloseSink(s), c) && CloseSink(s).sink == None && CloseSink(s).agg == s.agg
            && CloseSink(s).ctrl == s.ctrl
  {
    if s.sink.Some? {
      CloseOneOwned(s, s.sink.value, c);
    }
  }

  lemma CloseOneOwned(s: State, d: nat, c: nat)
    requires Owned(s, c) && s.sink == Some(d)
    ensures Owned(CloseSink(s), c)
  {
    if d < |s.srcs| {
      assert CloseSink(s).srcs == s.srcs[d := s.srcs[d].(closed := true)];
    }
  }

  lemma AdoptOwned(s: State, c: nat)
    requires Owned(s, c) && s.sink == None && s.ctrl != []
    ensures Owned(s.(sink := Some(s.ctrl[0]), ctrl := s.ctrl[1..], outArmed := false), c)
  {
    Pulled(s.ctrl);
  }

  lemma ParkTakeOwned(cfg: Config, s: State, c: nat)
    requires Owned(s, c) && AggEnabled(cfg, s, ParkTake)
    ensures Owned(AggNext(cfg, s, ParkTake), c)
  {
    Pulled(s.park);
  }

  lemma ResumePushOwned(cfg: Config, s: State, c: nat)
    requires Owned(s, c) && AggEnabled(cfg, s, ResumePush)
    ensures Owned(AggNext(cfg, s, ResumePush), c)
  {
  }

  lemma ResumeWriteOwned(cfg: Config, s: State, c: nat)
    requires Owned(s, c) && AggEnabled(cfg, s, ResumeWrite)
    ensures Owned(AggNext(cfg, s, ResumeWrite), c)
  {
  }

  lemma ResumeArmOwned(cfg: Config, s: State, c: nat)
    requires Owned(s, c) && AggEnabled(cfg, s, ResumeArm)
    ensures Owned(AggNext(cfg, s, ResumeArm), c)
  {
  }

  predicate MovesOwnership(a: AggAct) {
    a.Adopt? || a.FlushBroken? || a.Wake? || a.ParkTake? || a.ResumePush? || a.ResumeWrite? || a.ResumeArm?
  }

  lemma AggKeepsHolders(cfg: Config, s: State, a: AggAct, c: nat)
    requires AggEnabled(cfg, s, a) && !MovesOwnership(a)
    ensures SameHolders(s, AggNext(cfg, s, a), c)
  {
  }

  lemma WakeOwned(cfg: Config, s: State, readEvent: bool, sinkGone: bool, c: nat)
    requires Owned(s, c) && Owned(CloseSink(s), c) && AggEnabled(cfg, s, Wake(readEvent, sinkGone))
    ensures Owned(AggNext(cfg, s, Wake(readEvent, sinkGone)), c)
  {
    SameOwned(if sinkGone then CloseSink(s) else s, AggNext(cfg, s, Wake(readEvent, sinkGone)), c);
  }

  lemma SinkStepOwned(cfg: Config, s: State, a: AggAct, c: nat)
    requires Owned(s, c) && AggEnabled(cfg, s, a) && (a.Adopt? || a.FlushBroken? || a.Wake?)
    ensures Owned(AggNext(cfg, s, a), c)
  {
    CloseSinkOwned(s, c);
    if a.Adopt? {
      AdoptOwned(CloseSink(s), c);
    } else if a.FlushBroken? {
      SameOwned(CloseSink(s), AggNext(cfg, s, a), c);
    } else {
      WakeOwned(cfg, s, a.readEvent, a.sinkGone, c);
    }
  }

  lemma AggOwned(cfg: Config, s: State, a: AggAct, c: nat)
    requires Owned(s, c) && AggEnabled(cfg, s, a)
    ensures Owned(AggNext(cfg, s, a), c)
  {
    if !MovesOwnership(a) {
      AggKeepsHolders(cfg, s, a, c);
      SameOwned(s, AggNext(cfg, s, a), c);
    } else if a.ParkTake? {
      ParkTakeOwned(cfg, s, c);
    } else if a.ResumePush? {
      ResumePushOwned(cfg, s, c);
    } else if a.ResumeWrite? {
      ResumeWriteOwned(cfg, s, c);
    } else if a.ResumeArm? {
      ResumeArmOwned(cfg, s, c);
    } else {
      SinkStepOwned(cfg, s, a, c);
    }
  }

  lemma StepOwned(cfg: Config, s: State, step: Step)
    requires AllOwned(s) && Enabled(cfg, s, step)
    ensures AllOwned(Next(cfg, s, step))
  {
    forall c: nat ensures Owned(Next(cfg, s, step), c) {
      match step {
        case OfListener(a) => ListenerOwned(s, a, c);
        case OfWorker(w, a) => WorkerOwned(cfg, s, w, a, c);
        case OfReactor(a) => ReactorOwned(cfg, s, a, c);
        case OfAgg(a) => AggOwned(cfg, s, a, c);
      }
    }
  }

  lemma {:induction false} RunOwned(cfg: Config, s: State, steps: seq<Step>)
    requires AllOwned(s) && Possible(cfg, s, steps)
    ensures AllOwned(After(cfg, s, steps))
    decreases |steps|
  {
    if steps != [] {
      StepOwned(cfg, s, steps[0]);
      RunOwned(cfg, Next(cfg, s, steps[0]), steps[1..]);
    }
  }

  lemma ReachableOwned(cfg: Config, s: State)
    requires Reachable(cfg, s)
    ensures AllOwned(s)
  {
    var s0, steps :| Init(s0) && Possible(cfg, s0, steps) && After(cfg, s0, steps) == s;
    InitOwned(s0);
    RunOwned(cfg, s0, steps);
  }

  // ---------------------------------------------------------------- what it means

  lemma Twice<T>(q: seq<T>, i: nat, j: nat)
    requires i < j < |q| && q[i] == q[j]
    ensures multiset(q)[q[i]] >= 2
  {
    assert q == q[..j] + q[j..];
    assert q[i] in q[..j] && q[j] in q[j..];
    assert multiset(q) == multiset(q[..j]) + multiset(q[j..]);
  }

  predicate Armed(s: State, c: nat) {
    Inbound(s, c) && s.srcs[c].armed
  }

  // The worker has c: it runs a handler on it, is about to remove it from epoll after parking it, or
  // is about to pass it on as a sink.
  predicate InHands(pc: WorkerPc, c: nat) {
    Working(pc, c) || pc == Leaving(c) || pc == HandingOff(c)
  }

  // The aggregator is resuming c.
  predicate Resumes(g: AggPc, c: nat) {
    g == Resume(c) || g == ResumeNotify(c) || g == ResumeAdd(c)
  }

  // In some queue or list, armed, the sink, or being resumed.
  predicate Elsewhere(s: State, c: nat) {
    c in s.workq || c in s.park || c in s.ctrl || s.sink == Some(c) || Armed(s, c) || Resumes(s.agg, c)
  }

  // No two of these places hold c.
  ghost predicate InOnePlace(s: State, c: nat) {
    && (Some(c) in s.listeners ==> !Elsewhere(s, c))
    && (c in s.workq ==> c !in s.park && c !in s.ctrl && s.sink != Some(c) && !Armed(s, c) && !Resumes(s.agg, c))
    && (c in s.park ==> c !in s.ctrl && s.sink != Some(c) && !Armed(s, c) && !Resumes(s.agg, c))
    && (c in s.ctrl || s.sink == Some(c) ==> !Armed(s, c) && !Resumes(s.agg, c))
    && (Armed(s, c) ==> !Resumes(s.agg, c))
  }

  // In every reachable state no two workers have the same connection. One that a worker has is
  // nowhere else; only a connection that its worker has parked, and is about to remove from epoll, is
  // in the park list, being resumed, or already lost. None is in the work queue twice, or in two of
  // these places.
  lemma ExclusiveOwnership(cfg: Config, s: State)
    requires Reachable(cfg, s)
    ensures forall i, j, c: nat :: 0 <= i < j < |s.workers| && InHands(s.workers[i], c) ==> !InHands(s.workers[j], c)
    ensures forall i, c: nat :: 0 <= i < |s.workers| && InHands(s.workers[i], c) && Elsewhere(s, c) ==>
              s.workers[i] == Leaving(c) && (c in s.park <==> !Resumes(s.agg, c))
    ensures forall i, c: nat :: 0 <= i < |s.workers| && s.workers[i] == Leaving(c) && !Elsewhere(s, c) ==>
              c < |s.srcs| && s.srcs[c].stranded
    ensures forall i, j :: 0 <= i < j < |s.workq| ==> s.workq[i] != s.workq[j]
    ensures forall c: nat :: InOnePlace(s, c)
  {
    ReachableOwned(cfg, s);
    forall i, j, c: nat | 0 <= i < j < |s.workers| && InHands(s.workers[i], c) ensures !InHands(s.workers[j], c) {
      if InHands(s.workers[j], c) {
        assert Owned(s, c);
        TwoWorkers(s, i, j, c);
      }
    }
    forall i, c: nat | 0 <= i < |s.workers| && InHands(s.workers[i], c)
      ensures Elsewhere(s, c) ==> s.workers[i] == Leaving(c) && (c in s.park <==> !Resumes(s.agg, c))
      ensures s.workers[i] == Leaving(c) && !Elsewhere(s, c) ==> c < |s.srcs| && s.srcs[c].stranded
    {
      assert Owned(s, c);
      InOneWorkersHands(s, i, c);
    }
    forall i, j | 0 <= i < j < |s.workq| ensures s.workq[i] != s.workq[j] {
      assert Owned(s, s.workq[i]);
      if s.workq[i] == s.workq[j] {
        Twice(s.workq, i, j);
      }
    }
    forall c: nat ensures InOnePlace(s, c) {
      assert Owned(s, c);
      HeldOnce(s, c);
    }
  }

  lemma HeldOnce(s: State, c: nat)
    requires Owned(s, c)
    ensures InOnePlace(s, c)
  {
  }

  lemma InOneWorkersHands(s: State, i: nat, c: nat)
    requires Owned(s, c) && i < |s.workers| && InHands(s.workers[i], c)
    ensures Elsewhere(s, c) ==> s.workers[i] == Leaving(c) && (c in s.park <==> !Resumes(s.agg, c))
    ensures s.workers[i] == Leaving(c) && !Elsewhere(s, c) ==> c < |s.srcs| && s.srcs[c].stranded
  {
    assert s.workers[i] in multiset(s.workers);
    assert Working(s.workers[i], c) ==> AtWorkers(s, c) >= 1;
  }

  lemma TwoWorkers(s: State, i: nat, j: nat, c: nat)
    requires i < j < |s.workers| && InHands(s.workers[i], c) && InHands(s.workers[j], c)
    ensures !Owned(s, c)
  {
    assert s.workers[i] in multiset(s.workers) && s.workers[j] in multiset(s.workers);
    if s.workers[i] == s.workers[j] {
      Twice(s.workers, i, j);
    }
    assert AtWorkers(s, c) + Leavers(s, c) + multiset(s.workers)[HandingOff(c)] >= 2;
  }

  // ---------------------------------------------------------------- threads

  // How many threads have c: listeners, workers, and the aggregator as its resumer or with it as sink.
  function ThreadsWith(s: State, c: nat): nat {
    multiset(s.listeners)[Some(c)]
    + AtWorkers(s, c) + Leavers(s, c) + multiset(s.workers)[HandingOff(c)]
    + One(Resumes(s.agg, c)) + One(s.sink == Some(c))
  }

  // At most two threads ever have the same connection; two have it exactly when the aggregator is
  // resuming it while the worker that parked it has not removed it from epoll yet.
  lemma SharedExactlyWhen(cfg: Config, s: State, c: nat)
    requires Reachable(cfg, s)
    ensures ThreadsWith(s, c) <= 2
    ensures ThreadsWith(s, c) == 2
       <==> Resumes(s.agg, c) && exists w :: 0 <= w < |s.workers| && s.workers[w] == Leaving(c)
  {
    ReachableOwned(cfg, s);
    assert Owned(s, c);
    assert Leavers(s, c) >= 1 <==> Leaving(c) in s.workers;
    assert Leaving(c) in s.workers <==> exists w :: 0 <= w < |s.workers| && s.workers[w] == Leaving(c);
  }

  // A worker that has parked a connection still has to remove it from epoll. Whenever it does, the
  // connection has not been closed and nobody else has armed it.
  lemma LateRemovalIsSafe(cfg: Config, s: State, w: nat)
    requires Reachable(cfg, s) && w < |s.workers| && s.workers[w].Leaving?
    ensures var c := s.workers[w].c;
            Inbound(s, c) && !s.srcs[c].closed && s.srcs[c].registered && !s.srcs[c].armed
  {
    ReachableOwned(cfg, s);
    assert Owned(s, s.workers[w].c);
    assert s.workers[w] in multiset(s.workers);
  }

  predicate ClosedNow(s: State, c: nat) {
    c < |s.srcs| && s.srcs[c].closed
  }

  ghost predicate StillServed(s: State, c: nat) {
    Alive(s, c) || ClosedNow(s, c)
  }

  // A connection stops having a holder only by being closed, or by being resumed while the worker
  // that parked it has not removed it from epoll yet: exactly then epoll_ctl(ADD) fails, and the
  // connection is never armed again.
  lemma StrandedExactlyWhen(cfg: Config, s: State, step: Step, c: nat)
    requires Reachable(cfg, s) && Enabled(cfg, s, step) && Alive(s, c)
    ensures !StillServed(Next(cfg, s, step), c)
       <==> step == OfAgg(ResumeArm) && s.agg == ResumeAdd(c)
            && exists w :: 0 <= w < |s.workers| && s.workers[w] == Leaving(c)
  {
    ReachableOwned(cfg, s);
    assert Owned(s, c);
    if step == OfAgg(ResumeArm) && s.agg == ResumeAdd(c) {
      ResumeStrands(cfg, s, c);
    } else {
      OnlyResumeStrands(cfg, s, step, c);
    }
  }

  lemma ResumeStrands(cfg: Config, s: State, c: nat)
    requires Owned(s, c) && Alive(s, c) && s.agg == ResumeAdd(c)
    ensures !StillServed(AggNext(cfg, s, ResumeArm), c)
            <==> exists w :: 0 <= w < |s.workers| && s.workers[w] == Leaving(c)
  {
    assert s.srcs[c].registered <==> Leaving(c) in multiset(s.workers);
    assert Leaving(c) in s.workers <==> exists w :: 0 <= w < |s.workers| && s.workers[w] == Leaving(c);
  }

  // What a step leaves of a source's life.
  ghost predicate Spares(s: State, s': State, c: nat) {
    c < |s.srcs| ==>
      c < |s'.srcs| && s'.srcs[c].upstream == s.srcs[c].upstream && s'.srcs[c].stranded == s.srcs[c].stranded
  }

  lemma ListenerSpares(s: State, a: ListenerAct, c: nat)
    requires ListenerEnabled(s, a)
    ensures Spares(s, ListenerNext(s, a), c)
  {
  }

  lemma WorkerSpares(cfg: Config, s: State, w: nat, a: WorkerAct, c: nat)
    requires WorkerEnabled(cfg, s, w, a)
    ensures Spares(s, WorkerNext(cfg, s, w, a), c)
  {
  }

  lemma ReactorSpares(cfg: Config, s: State, a: ReactorAct, c: nat)
    requires ReactorEnabled(cfg, s, a)
    ensures Spares(s, ReactorNext(cfg, s, a), c)
  {
  }

  lemma AggSpares(cfg: Config, s: State, a: AggAct, c: nat)
    requires AggEnabled(cfg, s, a) && !(a.ResumeArm? && s.agg == ResumeAdd(c))
    ensures Spares(s, AggNext(cfg, s, a), c)
  {
  }

  lemma OnlyResumeStrands(cfg: Config, s: State, step: Step, c: nat)
    requires Enabled(cfg, s, step) && Alive(s, c)
    requires !(step == OfAgg(ResumeArm) && s.agg == ResumeAdd(c))
    ensures StillServed(Next(cfg, s, step), c)
  {
    match step {
      case OfListener(a) => ListenerSpares(s, a, c);
      case OfWorker(w, a) => WorkerSpares(cfg, s, w, a, c);
      case OfReactor(a) => ReactorSpares(cfg, s, a, c);
      case OfAgg(a) => AggSpares(cfg, s, a, c);
    }
  }

  // Once stranded it is out of every thread's reach.
  lemma StrandedIsForGood(cfg: Config, s: State, c: nat)
    requires Reachable(cfg, s) && Inbound(s, c) && s.srcs[c].stranded
    ensures Holders(s, c) == 0 && !s.srcs[c].armed && c !in s.workq && c !in s.park
  {
    ReachableOwned(cfg, s);
    assert Owned(s, c);
  }
}
