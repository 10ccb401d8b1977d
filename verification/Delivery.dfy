// What backpressure does to messages, in every run: each assembled message is in exactly one place,
// and each source's messages are popped in the order they were assembled.
module Delivery {
  import opened Bytes
  import opened Protocol
  import opened Ownership

  // ---------------------------------------------------------------- the line of messages

  function Items(done: seq<Done>): seq<Item> {
    if done == [] then [] else Items(done[..|done| - 1]) + [done[|done| - 1].item]
  }

  // Everything the aggregator has popped, in the order it was popped.
  function Popped(s: State): seq<Item> {
    Items(s.done) + Opt(s.slot)
  }

  // Everything that was ever pushed, in the order it was pushed.
  function Line(s: State): seq<Item> {
    Popped(s) + s.queue
  }

  // The message numbers of one source.
  function Nums(line: seq<Item>, c: nat): seq<nat> {
    if line == [] then []
    else
      var last := line[|line| - 1];
      Nums(line[..|line| - 1], c) + if last.src == c then [last.num] else []
  }

  lemma NumsAdd(line: seq<Item>, x: Item, c: nat)
    ensures Nums(line + [x], c) == Nums(line, c) + if x.src == c then [x.num] else []
  {
    assert (line + [x])[..|line|] == line;
  }

  lemma ItemsAdd(done: seq<Done>, d: Done)
    ensures Items(done + [d]) == Items(done) + [d.item]
  {
    assert (done + [d])[..|done|] == done;
  }

  lemma {:induction false} NumsConcat(a: seq<Item>, b: seq<Item>, c: nat)
    ensures Nums(a + b, c) == Nums(a, c) + Nums(b, c)
  {
    if b == [] {
      assert a + b == a;
    } else {
      var k := |b| - 1;
      assert a + b == (a + b[..k]) + [b[k]];
      NumsAdd(a + b[..k], b[k], c);
      NumsConcat(a, b[..k], c);
    }
  }

  // ---------------------------------------------------------------- the invariant

  ghost predicate Increasing(q: seq<nat>) {
    forall i, j :: 0 <= i < j < |q| ==> q[i] < q[j]
  }

  // Of the messages assembled so far, each is either kept or dropped, and an inbound connection drops none.
  ghost predicate Numbered(x: Source) {
    && Increasing(x.kept)
    && (forall n: nat :: n in x.kept || n in x.dropped <==> n < x.made)
    && (forall n: nat :: n in x.kept ==> n !in x.dropped)
    && (!x.upstream ==> x.dropped == {} && |x.kept| == x.made && forall i :: 0 <= i < |x.kept| ==> x.kept[i] == i)
  }

  // The handler that is about to push c's message is unique, and so is the place that remembers its
  // pending message.
  ghost predicate Custody(s: State, c: nat)
    requires c < |s.srcs|
  {
    var x := s.srcs[c];
    if x.upstream then
      && One(x.hand.Some?) == One(s.reactor == RPushing(c))
      && (x.hand.Some? ==> x.pending == None)
    else
      && s.reactor != RPushing(c)
      && One(x.hand.Some?) == multiset(s.workers)[Pushing(c)]
      && One(x.pending.Some?) == multiset(s.workers)[Parking(c)] + multiset(s.park)[c] + One(s.agg == Resume(c))
  }

  ghost predicate Tracked(s: State, c: nat) {
    if c < |s.srcs| then
      var x := s.srcs[c];
      && Numbered(x)
      && Custody(s, c)
      && Nums(Line(s), c) + Opt(x.hand) + Opt(x.pending) == x.kept
    else
      Nums(Line(s), c) == [] && s.reactor != RPushing(c)
  }

  // Between a completed flush and the next pop the frame slot is empty.
  predicate SlotFree(s: State) {
    s.agg.Ctrl? || s.agg.Flush? || s.agg.Blocked? || s.slot == None
  }

  ghost predicate AllTracked(s: State) {
    AllOwned(s) && SlotFree(s) && forall c: nat :: Tracked(s, c)
  }

  lemma InitTracked(s: State)
    requires Init(s)
    ensures AllTracked(s)
  {
    InitOwned(s);
  }

  lemma SlotStaysFree(cfg: Config, s: State, step: Step)
    requires SlotFree(s) && Enabled(cfg, s, step)
    ensures SlotFree(Next(cfg, s, step))
  {
  }

  // ---------------------------------------------------------------- steps that move no message

  ghost predicate SameMessages(s: State, s': State, c: nat) {
    if c < |s.srcs| then
      && c < |s'.srcs|
      && var x, y := s.srcs[c], s'.srcs[c];
         y.(registered := x.registered, armed := x.armed, closed := x.closed, stranded := x.stranded) == x
    else
      |s'.srcs| <= c
  }

  ghost predicate SamePlaces(s: State, s': State, c: nat) {
    && Nums(Line(s'), c) == Nums(Line(s), c)
    && SameMessages(s, s', c)
    && multiset(s'.workers)[Pushing(c)] == multiset(s.workers)[Pushing(c)]
    && multiset(s'.workers)[Parking(c)] == multiset(s.workers)[Parking(c)]
    && multiset(s'.park)[c] == multiset(s.park)[c]
    && (s'.agg == Resume(c) <==> s.agg == Resume(c))
    && (s'.reactor == RPushing(c) <==> s.reactor == RPushing(c))
  }

  lemma SameTracked(s: State, s': State, c: nat)
    requires Tracked(s, c) && SamePlaces(s, s', c)
    ensures Tracked(s', c)
  {
  }

  lemma ListenerMovesNone(s: State, a: ListenerAct, c: nat)
    requires ListenerEnabled(s, a) && !a.Accept?
    ensures SamePlaces(s, ListenerNext(s, a), c)
  {
  }

  predicate MovesMessage(a: WorkerAct) {
    a.MakeRoom? || a.MakeFull? || a.Push? || a.Park?
  }

  // A worker that is not about to push or park a message, and does not come to be.
  lemma StepsAside(ws: seq<WorkerPc>, w: nat, pc: WorkerPc, c: nat)
    requires w < |ws| && !ws[w].Pushing? && !ws[w].Parking? && !pc.Pushing? && !pc.Parking?
    ensures multiset(ws[w := pc])[Pushing(c)] == multiset(ws)[Pushing(c)]
    ensures multiset(ws[w := pc])[Parking(c)] == multiset(ws)[Parking(c)]
  {
    Replaced(ws, w, pc, Pushing(c));
    Replaced(ws, w, pc, Parking(c));
  }

  // ... and nothing else it does moves a message either.
  ghost predicate StandsAside(s: State, s': State, w: nat, c: nat) {
    && w < |s.workers| && w < |s'.workers| && s'.workers == s.workers[w := s'.workers[w]]
    && !s.workers[w].Pushing? && !s.workers[w].Parking? && !s'.workers[w].Pushing? && !s'.workers[w].Parking?
    && s'.done == s.done && s'.slot == s.slot && s'.queue == s.queue
    && s'.park == s.park && s'.agg == s.agg && s'.reactor == s.reactor
    && SameMessages(s, s', c)
  }

  lemma OthersStandAside(cfg: Config, s: State, w: nat, a: WorkerAct, c: nat)
    requires WorkerEnabled(cfg, s, w, a) && !MovesMessage(a)
    ensures StandsAside(s, WorkerNext(cfg, s, w, a), w, c)
  {
  }

  lemma StandingAsideKeepsPlaces(s: State, s': State, w: nat, c: nat)
    requires StandsAside(s, s', w, c)
    ensures SamePlaces(s, s', c)
  {
    StepsAside(s.workers, w, s'.workers[w], c);
  }

  // A frame that leaves the slot joins the finished ones, whether it was sent or lost with its sink.
  lemma SlotToDone(done: seq<Done>, slot: Option<Item>, delivered: bool)
    ensures Items(done + (if slot.Some? then [Done(slot.value, delivered)] else [])) + Opt<Item>(None)
            == Items(done) + Opt(slot)
  {
    if slot.Some? {
      ItemsAdd(done, Done(slot.value, delivered));
    } else {
      assert done + [] == done;
    }
  }

  lemma CloseSinkKeepsLine(s: State)
    ensures Line(CloseSink(s)) == Line(s)
  {
    SlotToDone(s.done, s.slot, false);
  }

  lemma CloseSinkKeepsMessages(s: State, c: nat)
    ensures SameMessages(s, CloseSink(s), c)
  {
  }

  predicate ClosesSink(a: AggAct) {
    a.Adopt? || a.FlushBroken? || a.Wake?
  }

  lemma PopKeepsLine(cfg: Config, s: State)
    requires s.slot == None && AggEnabled(cfg, s, AggAct.Pop)
    ensures Line(AggNext(cfg, s, AggAct.Pop)) == Line(s)
  {
    assert s.queue == [s.queue[0]] + s.queue[1..];
  }

  // Where a step that closes the sink, or leaves it, keeps its messages.
  lemma {:induction false} ClosingShape(cfg: Config, s: State, a: AggAct)
    requires AggEnabled(cfg, s, a) && ClosesSink(a)
    ensures var s' := AggNext(cfg, s, a);
            var t := if a.Wake? && !a.sinkGone then s else CloseSink(s);
            && s'.srcs == t.srcs && s'.done == t.done && s'.slot == t.slot && s'.queue == t.queue
            && s'.workers == s.workers && s'.park == s.park && s'.reactor == s.reactor
            && !s.agg.Resume? && !s'.agg.Resume?
  {
  }

  lemma {:induction false} ClosingKeepsPlaces(cfg: Config, s: State, a: AggAct, c: nat)
    requires AggEnabled(cfg, s, a) && ClosesSink(a)
    ensures SamePlaces(s, AggNext(cfg, s, a), c)
  {
    ClosingShape(cfg, s, a);
    CloseSinkKeepsLine(s);
    CloseSinkKeepsMessages(s, c);
    SameParts(s, AggNext(cfg, s, a), if a.Wake? && !a.sinkGone then s else CloseSink(s), c);
  }

  lemma {:induction false} SameParts(s: State, s': State, t: State, c: nat)
    requires s'.srcs == t.srcs && s'.done == t.done && s'.slot == t.slot && s'.queue == t.queue
    requires s'.workers == s.workers && s'.park == s.park && s'.reactor == s.reactor
    requires !s.agg.Resume? && !s'.agg.Resume?
    requires Line(t) == Line(s) && SameMessages(s, t, c)
    ensures SamePlaces(s, s', c)
  {
    assert Line(s') == Line(t);
  }

  lemma FlushDoneKeepsPlaces(cfg: Config, s: State, c: nat)
    requires AggEnabled(cfg, s, FlushDone)
    ensures SamePlaces(s, AggNext(cfg, s, FlushDone), c)
  {
    SlotToDone(s.done, s.slot, true);
  }

  predicate OnlyMovesOn(a: AggAct) {
    !ClosesSink(a) && !a.FlushDone? && !a.Pop? && !a.ResumePush? && !a.ParkTake? && !a.ResumeArm?
  }

  lemma MovingOnKeepsPlaces(cfg: Config, s: State, a: AggAct, c: nat)
    requires AggEnabled(cfg, s, a) && OnlyMovesOn(a)
    ensures SamePlaces(s, AggNext(cfg, s, a), c)
  {
  }

  lemma ResumeArmKeepsPlaces(cfg: Config, s: State, c: nat)
    requires AggEnabled(cfg, s, ResumeArm)
    ensures SamePlaces(s, AggNext(cfg, s, ResumeArm), c)
  {
  }

  lemma AggMovesNone(cfg: Config, s: State, a: AggAct, c: nat)
    requires SlotFree(s) && AggEnabled(cfg, s, a) && !a.ResumePush? && !a.ParkTake?
    ensures SamePlaces(s, AggNext(cfg, s, a), c)
  {
    if OnlyMovesOn(a) {
      MovingOnKeepsPlaces(cfg, s, a, c);
    } else if ClosesSink(a) {
      ClosingKeepsPlaces(cfg, s, a, c);
    } else {
      match a {
        case FlushDone => FlushDoneKeepsPlaces(cfg, s, c);
        case Pop => PopKeepsLine(cfg, s);
        case ResumeArm => ResumeArmKeepsPlaces(cfg, s, c);
      }
    }
  }

  // ---------------------------------------------------------------- steps that do

  // Nobody has a connection that does not exist yet.
  lemma {:induction false} NoTrace(s: State)
    requires Owned(s, |s.srcs|)
    ensures var c := |s.srcs|;
            && multiset(s.workers)[Pushing(c)] == 0 && multiset(s.workers)[Parking(c)] == 0
            && multiset(s.park)[c] == 0 && s.agg != Resume(c)
  {
    assert !Alive(s, |s.srcs|);
  }

  lemma {:induction false} BornTracked(s: State, x: Source, c: nat)
    requires c < |s.srcs| && s.srcs[c] == x && (x == FRESH || x == UPSTREAM)
    requires Nums(Line(s), c) == [] && s.reactor != RPushing(c)
    requires multiset(s.workers)[Pushing(c)] == 0 && multiset(s.workers)[Parking(c)] == 0
    requires multiset(s.park)[c] == 0 && s.agg != Resume(c)
    ensures Tracked(s, c)
  {
  }

  lemma {:induction false} NewSourceTracked(s: State, x: Source, c: nat)
    requires Owned(s, c) && Tracked(s, c) && (x == FRESH || x == UPSTREAM)
    ensures Tracked(s.(srcs := s.srcs + [x]), c)
  {
    var s' := s.(srcs := s.srcs + [x]);
    assert Line(s') == Line(s);
    if c < |s.srcs| {
      SameTracked(s, s', c);
    } else if c == |s.srcs| {
      NoTrace(s);
      BornTracked(s', x, c);
    }
  }

  // Assembling one more message.
  lemma {:induction false} MakeNumbered(x: Source)
    requires Numbered(x)
    ensures Numbered(Make(x))
  {
    var y := Make(x);
    forall n: nat ensures n in y.kept || n in y.dropped <==> n < y.made {
      assert n in y.kept <==> n in x.kept || n == x.made;
    }
    forall i, j | 0 <= i < j < |y.kept| ensures y.kept[i] < y.kept[j] {
      assert x.kept[i] in x.kept;
    }
  }

  // While a worker runs a handler on c, c has neither a message to push nor a pending one.
  lemma HoldsAlone(s: State, w: nat, c: nat)
    requires Owned(s, c) && Tracked(s, c) && w < |s.workers| && s.workers[w] == Hold(c)
    ensures Inbound(s, c) ==> s.srcs[c].hand == None && s.srcs[c].pending == None
  {
    assert s.workers[w] in multiset(s.workers);
  }

  lemma OneMore(q: seq<nat>, kept: seq<nat>, m: nat)
    requires q + [] + [] == kept
    ensures q + [m] + [] == kept + [m] && q + [] + [m] == kept + [m]
  {
    assert q + [] == q;
  }

  // A worker assembles a message, for its hand or to keep it pending: the counts that Custody compares,
  predicate Makes(a: WorkerAct) {
    a.MakeRoom? || a.MakeFull?
  }

  lemma {:induction false} MakeKeepsCustody(cfg: Config, s: State, w: nat, a: WorkerAct, c: nat)
    requires Owned(s, c) && Tracked(s, c) && WorkerEnabled(cfg, s, w, a) && Makes(a) && s.workers[w].c == c
    ensures Custody(WorkerNext(cfg, s, w, a), c)
  {
    var s' := WorkerNext(cfg, s, w, a);
    HoldsAlone(s, w, c);
    Replaced(s.workers, w, s'.workers[w], Pushing(c));
    Replaced(s.workers, w, s'.workers[w], Parking(c));
  }

  // and the line.
  lemma {:induction false} MakeKeepsLine(cfg: Config, s: State, w: nat, a: WorkerAct, c: nat)
    requires Owned(s, c) && Tracked(s, c) && WorkerEnabled(cfg, s, w, a) && Makes(a) && s.workers[w].c == c
    ensures var s' := WorkerNext(cfg, s, w, a);
            var y := s'.srcs[c];
            y.kept == s.srcs[c].kept + [s.srcs[c].made] && Nums(Line(s'), c) + Opt(y.hand) + Opt(y.pending) == y.kept
  {
    HoldsAlone(s, w, c);
    assert Line(WorkerNext(cfg, s, w, a)) == Line(s);
    OneMore(Nums(Line(s), c), s.srcs[c].kept, s.srcs[c].made);
  }

  lemma {:induction false} MakeTracked(cfg: Config, s: State, w: nat, a: WorkerAct, c: nat)
    requires Owned(s, c) && Tracked(s, c) && WorkerEnabled(cfg, s, w, a) && Makes(a) && s.workers[w].c == c
    ensures Tracked(WorkerNext(cfg, s, w, a), c)
  {
    MakeKeepsCustody(cfg, s, w, a, c);
    MakeKeepsLine(cfg, s, w, a, c);
    MakeNumbered(s.srcs[c]);
    SameNumbers(Make(s.srcs[c]), WorkerNext(cfg, s, w, a).srcs[c]);
  }

  lemma SameNumbers(x: Source, y: Source)
    requires Numbered(x) && y == x.(hand := y.hand, pending := y.pending)
    ensures Numbered(y)
  {
  }

  lemma {:induction false} LineGrows(s: State, s': State, x: Item, c: nat)
    requires s'.done == s.done && s'.slot == s.slot && s'.queue == s.queue + [x]
    ensures Nums(Line(s'), c) == Nums(Line(s), c) + if x.src == c then [x.num] else []
  {
    assert Line(s') == Line(s) + [x];
    NumsAdd(Line(s), x, c);
  }

  lemma {:induction false} PushTracked(cfg: Config, s: State, w: nat, c: nat)
    requires Owned(s, c) && Tracked(s, c) && WorkerEnabled(cfg, s, w, WorkerAct.Push) && s.workers[w].c == c
    ensures Tracked(WorkerNext(cfg, s, w, WorkerAct.Push), c)
  {
    var s' := WorkerNext(cfg, s, w, WorkerAct.Push);
    LineGrows(s, s', Item(c, s.srcs[c].hand.value), c);
    Replaced(s.workers, w, s'.workers[w], Pushing(c));
    Replaced(s.workers, w, s'.workers[w], Parking(c));
  }

  lemma {:induction false} ParkTracked(cfg: Config, s: State, w: nat, c: nat)
    requires Owned(s, c) && Tracked(s, c) && WorkerEnabled(cfg, s, w, WorkerAct.Park)
    ensures Tracked(WorkerNext(cfg, s, w, WorkerAct.Park), c)
  {
    var s' := WorkerNext(cfg, s, w, WorkerAct.Park);
    Replaced(s.workers, w, s'.workers[w], Pushing(c));
    Replaced(s.workers, w, s'.workers[w], Parking(c));
    assert Line(s') == Line(s);
  }

  // A message of another source: for c nothing changes.
  lemma OtherUntouched(cfg: Config, s: State, w: nat, a: WorkerAct, c: nat)
    requires WorkerEnabled(cfg, s, w, a) && (a.MakeRoom? || a.MakeFull? || a.Push?) && s.workers[w].c != c
    ensures SamePlaces(s, WorkerNext(cfg, s, w, a), c)
  {
    var s', d := WorkerNext(cfg, s, w, a), s.workers[w].c;
    Replaced(s.workers, w, s'.workers[w], Pushing(c));
    Replaced(s.workers, w, s'.workers[w], Parking(c));
    if a.Push? {
      LineGrows(s, s', Item(d, s.srcs[d].hand.value), c);
    }
  }

  lemma WorkerTracked(cfg: Config, s: State, w: nat, a: WorkerAct, c: nat)
    requires Owned(s, c) && Tracked(s, c) && WorkerEnabled(cfg, s, w, a)
    ensures Tracked(WorkerNext(cfg, s, w, a), c)
  {
    if !MovesMessage(a) {
      OthersStandAside(cfg, s, w, a, c);
      StandingAsideKeepsPlaces(s, WorkerNext(cfg, s, w, a), w, c);
      SameTracked(s, WorkerNext(cfg, s, w, a), c);
    } else if !a.Park? && s.workers[w].c != c {
      OtherUntouched(cfg, s, w, a, c);
      SameTracked(s, WorkerNext(cfg, s, w, a), c);
    } else {
      match a {
        case MakeRoom => MakeTracked(cfg, s, w, a, c);
        case MakeFull => MakeTracked(cfg, s, w, a, c);
        case Push => PushTracked(cfg, s, w, c);
        case Park => ParkTracked(cfg, s, w, c);
      }
    }
  }

  lemma UMakeRoomTracked(cfg: Config, s: State, u: nat, c: nat)
    requires Owned(s, c) && Tracked(s, c) && ReactorEnabled(cfg, s, UMakeRoom(u))
    ensures Tracked(ReactorNext(cfg, s, UMakeRoom(u)), c)
  {
    assert Line(ReactorNext(cfg, s, UMakeRoom(u))) == Line(s);
    if c == u {
      OneMore(Nums(Line(s), c), s.srcs[c].kept, s.srcs[c].made);
      MakeNumbered(s.srcs[c]);
    } else {
      SameTracked(s, ReactorNext(cfg, s, UMakeRoom(u)), c);
    }
  }

  lemma UMakeFullTracked(cfg: Config, s: State, u: nat, c: nat)
    requires Owned(s, c) && Tracked(s, c) && ReactorEnabled(cfg, s, UMakeFull(u))
    ensures Tracked(ReactorNext(cfg, s, UMakeFull(u)), c)
  {
    assert Line(ReactorNext(cfg, s, UMakeFull(u))) == Line(s);
    if c == u {
      OneMore(Nums(Line(s), c), s.srcs[c].kept, s.srcs[c].made);
      MakeNumbered(s.srcs[c]);
    } else {
      SameTracked(s, ReactorNext(cfg, s, UMakeFull(u)), c);
    }
  }

  lemma UResumeTracked(cfg: Config, s: State, u: nat, c: nat)
    requires Owned(s, c) && Tracked(s, c) && ReactorEnabled(cfg, s, UResume(u))
    ensures Tracked(ReactorNext(cfg, s, UResume(u)), c)
  {
    assert Line(ReactorNext(cfg, s, UResume(u))) == Line(s);
  }

  lemma {:induction false} UPushTracked(cfg: Config, s: State, c: nat)
    requires Owned(s, c) && Tracked(s, c) && ReactorEnabled(cfg, s, UPush)
    ensures Tracked(ReactorNext(cfg, s, UPush), c)
  {
    var u := s.reactor.u;
    LineGrows(s, ReactorNext(cfg, s, UPush), Item(u, s.srcs[u].hand.value), c);
  }

  // A disconnect drops the newest message, and only if it is still pending.
  lemma DropNumbered(x: Source, y: Source)
    requires Numbered(x) && x.upstream && x.kept != []
    requires var k := |x.kept| - 1;
             y == x.(pending := None, dropped := x.dropped + {x.kept[k]}, kept := x.kept[..k])
    ensures Numbered(y)
  {
    var k := |x.kept| - 1;
    assert x.kept == x.kept[..k] + [x.kept[k]];
    forall n: nat ensures n in y.kept || n in y.dropped <==> n < y.made {
      assert n in x.kept <==> n in y.kept || n == x.kept[k];
    }
    forall n: nat | n in y.kept ensures n !in y.dropped {
      assert n in x.kept;
    }
  }

  lemma {:induction false} DisconnectTracked(cfg: Config, s: State, u: nat, c: nat)
    requires Owned(s, c) && Tracked(s, c) && ReactorEnabled(cfg, s, Disconnect(u))
    ensures Tracked(ReactorNext(cfg, s, Disconnect(u)), c)
  {
    var s' := ReactorNext(cfg, s, Disconnect(u));
    assert Line(s') == Line(s);
    if c == u && s.srcs[u].pending.Some? {
      DropLast(Nums(Line(s), c), s.srcs[c].pending.value, s.srcs[c].kept);
      DropNumbered(s.srcs[c], s'.srcs[c]);
    }
  }

  lemma DropLast(q: seq<nat>, n: nat, kept: seq<nat>)
    requires q + [] + [n] == kept
    ensures kept != [] && kept[|kept| - 1] == n && kept[..|kept| - 1] == q
  {
  }

  lemma ReactorTracked(cfg: Config, s: State, a: ReactorAct, c: nat)
    requires Owned(s, c) && Tracked(s, c) && ReactorEnabled(cfg, s, a)
    ensures Tracked(ReactorNext(cfg, s, a), c)
  {
    match a {
      case AddUpstream => NewSourceTracked(s, UPSTREAM, c);
      case UMakeRoom(u) => UMakeRoomTracked(cfg, s, u, c);
      case UMakeFull(u) => UMakeFullTracked(cfg, s, u, c);
      case UResume(u) => UResumeTracked(cfg, s, u, c);
      case UPush => UPushTracked(cfg, s, c);
      case UNotify => SameTracked(s, ReactorNext(cfg, s, a), c);
      case Disconnect(u) => DisconnectTracked(cfg, s, u, c);
    }
  }

  lemma ParkTakeTracked(cfg: Config, s: State, c: nat)
    requires Tracked(s, c) && AggEnabled(cfg, s, ParkTake)
    ensures Tracked(AggNext(cfg, s, ParkTake), c)
  {
    assert Line(AggNext(cfg, s, ParkTake)) == Line(s);
    Pulled(s.park);
  }

  lemma {:induction false} ResumePushTracked(cfg: Config, s: State, c: nat)
    requires Owned(s, c) && Tracked(s, c) && AggEnabled(cfg, s, ResumePush)
    ensures Tracked(AggNext(cfg, s, ResumePush), c)
  {
    var d := s.agg.c;
    LineGrows(s, AggNext(cfg, s, ResumePush), Item(d, s.srcs[d].pending.value), c);
    if c != d {
      SameTracked(s, AggNext(cfg, s, ResumePush), c);
    }
  }

  lemma AggTracked(cfg: Config, s: State, a: AggAct, c: nat)
    requires Owned(s, c) && SlotFree(s) && Tracked(s, c) && AggEnabled(cfg, s, a)
    ensures Tracked(AggNext(cfg, s, a), c)
  {
    match a {
      case ParkTake => ParkTakeTracked(cfg, s, c);
      case ResumePush => ResumePushTracked(cfg, s, c);
      case _ =>
        AggMovesNone(cfg, s, a, c);
        SameTracked(s, AggNext(cfg, s, a), c);
    }
  }

  // ---------------------------------------------------------------- every run

  lemma SourceTracked(cfg: Config, s: State, step: Step, c: nat)
    requires Owned(s, c) && SlotFree(s) && Tracked(s, c) && Enabled(cfg, s, step)
    ensures Tracked(Next(cfg, s, step), c)
  {
    match step {
      case OfListener(a) =>
        if a.Accept? {
          NewSourceTracked(s, FRESH, c);
        } else {
          ListenerMovesNone(s, a, c);
          SameTracked(s, ListenerNext(s, a), c);
        }
      case OfWorker(w, a) => WorkerTracked(cfg, s, w, a, c);
      case OfReactor(a) => ReactorTracked(cfg, s, a, c);
      case OfAgg(a) => AggTracked(cfg, s, a, c);
    }
  }

  lemma StepTracked(cfg: Config, s: State, step: Step)
    requires AllTracked(s) && Enabled(cfg, s, step)
    ensures AllTracked(Next(cfg, s, step))
  {
    StepOwned(cfg, s, step);
    SlotStaysFree(cfg, s, step);
    forall c: nat ensures Tracked(Next(cfg, s, step), c) {
      assert Owned(s, c);
      SourceTracked(cfg, s, step, c);
    }
  }

  lemma {:induction false} RunTracked(cfg: Config, s: State, steps: seq<Step>)
    requires AllTracked(s) && Possible(cfg, s, steps)
    ensures AllTracked(After(cfg, s, steps))
    decreases |steps|
  {
    if steps != [] {
      StepTracked(cfg, s, steps[0]);
      RunTracked(cfg, Next(cfg, s, steps[0]), steps[1..]);
    }
  }

  lemma ReachableTracked(cfg: Config, s: State)
    requires Reachable(cfg, s)
    ensures AllTracked(s)
  {
    var s0, steps :| Init(s0) && Possible(cfg, s0, steps) && After(cfg, s0, steps) == s;
    InitTracked(s0);
    RunTracked(cfg, s0, steps);
  }

  // ---------------------------------------------------------------- what it means

  // Each source's messages are popped in the order they were assembled: what has been popped is the
  // beginning of what the source assembled, less only what a disconnect dropped. For an inbound
  // connection it is 0, 1, 2, ... without a gap.
  lemma PoppedInOrder(cfg: Config, s: State, c: nat)
    requires Reachable(cfg, s) && c < |s.srcs|
    ensures Nums(Popped(s), c) <= s.srcs[c].kept
    ensures forall i, j :: 0 <= i < j < |Nums(Popped(s), c)| ==> Nums(Popped(s), c)[i] < Nums(Popped(s), c)[j]
    ensures Inbound(s, c) ==> forall i :: 0 <= i < |Nums(Popped(s), c)| ==> Nums(Popped(s), c)[i] == i
  {
    ReachableTracked(cfg, s);
    assert Tracked(s, c);
    NumsConcat(Popped(s), s.queue, c);
    Front(Nums(Popped(s), c), Nums(s.queue, c), Opt(s.srcs[c].hand), Opt(s.srcs[c].pending), s.srcs[c].kept);
  }

  lemma Front(a: seq<nat>, b: seq<nat>, h: seq<nat>, p: seq<nat>, kept: seq<nat>)
    requires a + b + h + p == kept
    ensures a <= kept
  {
  }

  // How many copies of a message there are, in all the places a message can be.
  function Copies(s: State, x: Item): nat {
    var held :=
      if x.src < |s.srcs| then One(s.srcs[x.src].hand == Some(x.num)) + One(s.srcs[x.src].pending == Some(x.num))
      else 0;
    held + multiset(s.queue)[x] + One(s.slot == Some(x))
    + multiset(s.done)[Done(x, true)] + multiset(s.done)[Done(x, false)]
  }

  lemma {:induction false} CountDone(done: seq<Done>, x: Item)
    ensures multiset(Items(done))[x] == multiset(done)[Done(x, true)] + multiset(done)[Done(x, false)]
  {
    if done != [] {
      var k := |done| - 1;
      CountDone(done[..k], x);
      assert done == done[..k] + [done[k]];
      var d := done[k];
      assert d == Done(x, true) || d == Done(x, false) <==> d.item == x;
      assert multiset(done) == multiset(done[..k]) + multiset{d};
    }
  }

  lemma {:induction false} CountNums(line: seq<Item>, x: Item)
    ensures multiset(Nums(line, x.src))[x.num] == multiset(line)[x]
  {
    if line != [] {
      var k := |line| - 1;
      CountNums(line[..k], x);
      assert line == line[..k] + [line[k]];
    }
  }

  lemma {:induction false} CountIncreasing(q: seq<nat>, n: nat)
    requires Increasing(q)
    ensures multiset(q)[n] == One(n in q)
  {
    if q != [] {
      var k := |q| - 1;
      CountIncreasing(q[..k], n);
      assert q == q[..k] + [q[k]];
    }
  }

  lemma CountPlaces(s: State, x: Item)
    ensures Copies(s, x) == multiset(Line(s))[x]
              + if x.src < |s.srcs|
                then multiset(Opt(s.srcs[x.src].hand))[x.num] + multiset(Opt(s.srcs[x.src].pending))[x.num]
                else 0
  {
    CountDone(s.done, x);
    assert multiset(Line(s)) == multiset(Items(s.done)) + multiset(Opt(s.slot)) + multiset(s.queue);
  }

  // Between s and s' the frame in the slot was finished, or nothing was; `whole`: the sink has it.
  ghost predicate Finishes(s: State, s': State, whole: bool) {
    s'.done == s.done || (s.slot.Some? && s'.slot == None && s'.done == s.done + [Done(s.slot.value, whole)])
  }

  lemma {:induction false} AggFinishes(cfg: Config, s: State, a: AggAct)
    requires AggEnabled(cfg, s, a)
    ensures Finishes(s, AggNext(cfg, s, a), a == FlushDone)
    ensures s.slot.Some? && (a == FlushDone || a == FlushBroken) ==> AggNext(cfg, s, a).done != s.done
    ensures s.slot.Some? && s.sink.Some? && AggNext(cfg, s, a).sink != s.sink ==> AggNext(cfg, s, a).done != s.done
    ensures AggNext(cfg, s, a).done == s.done && a != AggAct.Pop && s.slot.Some? ==> AggNext(cfg, s, a).slot == s.slot
  {
    assert s.done + [] == s.done;
  }

  // A message is finished by the step that empties the slot: as delivered exactly when the slot has been
  // sent whole, and otherwise as lost, with its sink: because that broke, closed or was replaced.
  lemma {:induction false} DeliveredExactlyWhenFlushed(cfg: Config, s: State, step: Step)
    requires Enabled(cfg, s, step)
    ensures var s' := Next(cfg, s, step);
            || s'.done == s.done
            || (s.slot.Some? && s'.slot == None && s'.done == s.done + [Done(s.slot.value, step == OfAgg(FlushDone))])
    ensures s.slot.Some? && (step == OfAgg(FlushDone) || step == OfAgg(FlushBroken)) ==>
              Next(cfg, s, step).done != s.done
    ensures s.slot.Some? && s.sink.Some? && Next(cfg, s, step).sink != s.sink ==> Next(cfg, s, step).done != s.done
    ensures s.slot.Some? && step != OfAgg(AggAct.Pop) && Next(cfg, s, step).done == s.done ==>
              Next(cfg, s, step).slot == s.slot
  {
    match step {
      case OfAgg(a) => AggFinishes(cfg, s, a);
      case _ =>
    }
  }

  // Conservation. Message n of source c is, from the moment it is assembled, in exactly one place: in
  // its handler's hand, in pendingMsg, in the data queue, in the frame slot, finished (delivered or
  // lost with the sink it was being sent to), or dropped by its own client's disconnect; and no other
  // message exists. An inbound connection's messages are never dropped on the way.
  lemma EveryMessageInOnePlace(cfg: Config, s: State, x: Item)
    requires Reachable(cfg, s)
    ensures Copies(s, x) + One(x.src < |s.srcs| && x.num in s.srcs[x.src].dropped)
            == One(x.src < |s.srcs| && x.num < s.srcs[x.src].made)
    ensures Inbound(s, x.src) ==> s.srcs[x.src].dropped == {}
  {
    ReachableTracked(cfg, s);
    assert Tracked(s, x.src);
    CountPlaces(s, x);
    CountNums(Line(s), x);
    if x.src < |s.srcs| {
      var y := s.srcs[x.src];
      CountIncreasing(y.kept, x.num);
      assert multiset(y.kept) == multiset(Nums(Line(s), x.src)) + multiset(Opt(y.hand)) + multiset(Opt(y.pending));
    }
  }

  // What a step drops of a source's messages.
  ghost predicate DropsNone(s: State, s': State, c: nat) {
    c < |s.srcs| ==> c < |s'.srcs| && s'.srcs[c].dropped == s.srcs[c].dropped
  }

  lemma WorkerDropsNone(cfg: Config, s: State, w: nat, a: WorkerAct, c: nat)
    requires WorkerEnabled(cfg, s, w, a)
    ensures DropsNone(s, WorkerNext(cfg, s, w, a), c)
  {
  }

  lemma ReactorDropsNone(cfg: Config, s: State, a: ReactorAct, c: nat)
    requires ReactorEnabled(cfg, s, a) && a != Disconnect(c)
    ensures DropsNone(s, ReactorNext(cfg, s, a), c)
  {
  }

  lemma AggDropsNone(cfg: Config, s: State, a: AggAct, c: nat)
    requires AggEnabled(cfg, s, a)
    ensures DropsNone(s, AggNext(cfg, s, a), c)
  {
  }

  // Only its own disconnect drops a message of a source, and then the one that was pending: backpressure
  // alone drops none.
  lemma OnlyDisconnectDrops(cfg: Config, s: State, step: Step, c: nat)
    requires Enabled(cfg, s, step) && c < |s.srcs|
    ensures c < |Next(cfg, s, step).srcs|
    ensures Next(cfg, s, step).srcs[c].dropped
         == s.srcs[c].dropped
            + (if step == OfReactor(Disconnect(c)) && s.srcs[c].pending.Some? then {s.srcs[c].pending.value} else {})
  {
    match step {
      case OfListener(a) =>
      case OfWorker(w, a) => WorkerDropsNone(cfg, s, w, a, c);
      case OfReactor(a) =>
        if a != Disconnect(c) {
          ReactorDropsNone(cfg, s, a, c);
        }
      case OfAgg(a) => AggDropsNone(cfg, s, a, c);
    }
  }

  // A step that a thread has in hand never waits for anything: what it needs is there.
  lemma HandlersNeverStick(cfg: Config, s: State)
    requires Reachable(cfg, s)
    ensures forall w :: 0 <= w < |s.workers| ==>
              && (s.workers[w].Pushing? ==> WorkerEnabled(cfg, s, w, WorkerAct.Push))
              && (s.workers[w].Leaving? ==> WorkerEnabled(cfg, s, w, WorkerAct.Leave))
              && (s.workers[w].Hold? ==> Alive(s, s.workers[w].c))
    ensures s.agg.Resume? ==> AggEnabled(cfg, s, ResumePush)
    ensures s.agg.ResumeAdd? ==> AggEnabled(cfg, s, ResumeArm)
    ensures s.reactor.RPushing? ==> ReactorEnabled(cfg, s, UPush)
  {
    ReachableTracked(cfg, s);
    forall w | 0 <= w < |s.workers|
      ensures s.workers[w].Pushing? ==> WorkerEnabled(cfg, s, w, WorkerAct.Push)
      ensures s.workers[w].Leaving? ==> WorkerEnabled(cfg, s, w, WorkerAct.Leave)
      ensures s.workers[w].Hold? ==> Alive(s, s.workers[w].c)
    {
      WorkerNeverSticks(cfg, s, w);
    }
    if s.agg.Resume? || s.agg.ResumeAdd? {
      assert Owned(s, s.agg.c) && Tracked(s, s.agg.c);
    }
    if s.reactor.RPushing? {
      assert Owned(s, s.reactor.u) && Tracked(s, s.reactor.u);
    }
  }

  lemma WorkerNeverSticks(cfg: Config, s: State, w: nat)
    requires AllTracked(s) && w < |s.workers|
    ensures s.workers[w].Pushing? ==> WorkerEnabled(cfg, s, w, WorkerAct.Push)
    ensures s.workers[w].Leaving? ==> WorkerEnabled(cfg, s, w, WorkerAct.Leave)
    ensures s.workers[w].Hold? ==> Alive(s, s.workers[w].c)
  {
    var pc := s.workers[w];
    if !pc.Idle? {
      assert Owned(s, pc.c) && Tracked(s, pc.c);
      assert pc in multiset(s.workers);
    }
  }

  // The frame being sent is never overwritten: a message is popped only into an empty slot.
  lemma SlotNeverOverwritten(cfg: Config, s: State)
    requires Reachable(cfg, s) && AggEnabled(cfg, s, AggAct.Pop)
    ensures s.slot == None
  {
    ReachableTracked(cfg, s);
  }
}
