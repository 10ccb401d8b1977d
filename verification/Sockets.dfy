// Non-blocking sockets. What the kernel will do is an arbitrary script, so a property proved of a
// caller holds for every schedule of partial reads, partial writes, would-block results and errors.
// Only the kernel's own moves are assumed; what a loop over them amounts to is stated here and proved.
module Sockets {
  import opened Bytes

  // ---------------------------------------------------------------- receiving

  datatype RawArrival = Data(bytes: seq<byte>) | Eof | RecvError

  type Arrival = a: RawArrival | a.Data? ==> a.bytes != [] witness Eof

  datatype Received = Got(bytes: seq<byte>) | Closed | Failed | WouldBlock

  // One recv(): what it answers and what is left of the script.
  function RecvGives(script: seq<Arrival>, max: nat): Received
    requires max > 0
  {
    if script == [] then WouldBlock
    else
      match script[0]
      case Eof => Closed
      case RecvError => Failed
      case Data(bytes) => Got(if |bytes| <= max then bytes else bytes[..max])
  }

  function RecvLeaves(script: seq<Arrival>, max: nat): seq<Arrival>
    requires max > 0
  {
    if script == [] then []
    else if script[0].Data? && |script[0].bytes| > max then
      var rest: Arrival := Data(script[0].bytes[max..]);
      [rest] + script[1..]
    else script[1..]
  }

  // The bytes that arrive before the connection ends, whether it ends, and what would follow.
  function Incoming(script: seq<Arrival>): seq<byte> {
    if script == [] || !script[0].Data? then [] else script[0].bytes + Incoming(script[1..])
  }

  predicate Ends(script: seq<Arrival>) {
    script != [] && (!script[0].Data? || Ends(script[1..]))
  }

  function Beyond(script: seq<Arrival>): seq<Arrival> {
    if script == [] then []
    else if !script[0].Data? then script[1..]
    else Beyond(script[1..])
  }

  // How much a script can still do.
  function Weight(script: seq<Arrival>): nat {
    if script == [] then 0
    else 1 + (if script[0].Data? then |script[0].bytes| else 0) + Weight(script[1..])
  }

  // However recv() cuts the data up, it gives what arrives, in order, and then says how it ended.
  lemma {:induction false} RecvIsIncoming(script: seq<Arrival>, max: nat)
    requires max > 0
    ensures var r, left := RecvGives(script, max), RecvLeaves(script, max);
            match r
            case Got(bytes) =>
              && 0 < |bytes| <= max && Incoming(script) == bytes + Incoming(left)
              && Ends(left) == Ends(script) && Beyond(left) == Beyond(script) && Weight(left) < Weight(script)
            case WouldBlock => script == left == [] && !Ends(script) && Incoming(script) == []
            case _ => Ends(script) && Incoming(script) == [] && left == Beyond(script)
  {
    var left := RecvLeaves(script, max);
    if script != [] && script[0].Data? && |script[0].bytes| > max {
      assert left[1..] == script[1..];
      assert script[0].bytes == script[0].bytes[..max] + script[0].bytes[max..];
      Assoc(script[0].bytes[..max], script[0].bytes[max..], Incoming(script[1..]));
    }
  }

  function GotBytes(r: Received): seq<byte> {
    if r.Got? then r.bytes else []
  }

  // Of what one script had to give, `got` has come, and the rest is up to the other.
  ghost predicate Came(before: seq<Arrival>, got: seq<byte>, after: seq<Arrival>) {
    Incoming(before) == got + Incoming(after) && Ends(after) == Ends(before) && Beyond(after) == Beyond(before)
  }

  lemma {:induction false} CameOn(start: seq<Arrival>, got: seq<byte>, before: seq<Arrival>, r: Received,
                                  after: seq<Arrival>)
    requires Came(start, got, before)
    requires exists max: nat {:trigger RecvGives(before, max)} ::
               max > 0 && r == RecvGives(before, max) && after == RecvLeaves(before, max)
    ensures match r
            case Got(bytes) => bytes != [] && Came(start, got + bytes, after) && Weight(after) < Weight(before)
            case WouldBlock => after == [] && !Ends(start) && got == Incoming(start)
            case _ => Ends(start) && got == Incoming(start) && after == Beyond(start)
  {
    var max: nat :| max > 0 && r == RecvGives(before, max) && after == RecvLeaves(before, max);
    RecvIsIncoming(before, max);
    Assoc(got, GotBytes(r), Incoming(after));
    assert got + [] == got;
  }

  class InSocket {
    var script: seq<Arrival>
    ghost var taken: seq<byte>     // every byte recv() has returned so far

    constructor (script: seq<Arrival>)
      ensures this.script == script && taken == []
    {
      this.script := script;
      taken := [];
    }

    method Recv(max: nat) returns (r: Received)
      requires max > 0
      modifies this
      ensures r == RecvGives(old(script), max) && script == RecvLeaves(old(script), max)
      ensures taken == if r.Got? then old(taken) + r.bytes else old(taken)
    {
      r := RecvGives(script, max);
      script := RecvLeaves(script, max);
      if r.Got? {
        taken := taken + r.bytes;
      }
    }
  }

  // A receive loop that goes on to the end: 0 when the socket has nothing more for now, -1 when it
  // has ended; and everything that came before has been read.
  ghost predicate ReadOut(script0: seq<Arrival>, got: seq<byte>, script: seq<Arrival>, rc: int) {
    && got == Incoming(script0)
    && (if Ends(script0) then rc == -1 && script == Beyond(script0) else rc == 0 && script == [])
  }

  // The next recv() of such a loop, which began with the socket at script0 and taken0 and has got this.
  method RecvMore(s: InSocket, max: nat, ghost script0: seq<Arrival>, ghost taken0: seq<byte>, ghost got: seq<byte>)
    returns (r: Received)
    requires max > 0 && Came(script0, got, s.script) && s.taken == taken0 + got
    modifies s
    ensures s.taken == taken0 + (got + GotBytes(r)) && (r.Got? ==> 0 < |r.bytes| <= max)
    ensures if r.Got? then Came(script0, got + r.bytes, s.script) && Weight(s.script) < old(Weight(s.script))
            else ReadOut(script0, got, s.script, if r.WouldBlock? then 0 else -1)
  {
    ghost var before := s.script;
    RecvIsIncoming(before, max);
    r := s.Recv(max);
    assert r == RecvGives(before, max);
    CameOn(script0, got, before, r, s.script);
    Assoc(taken0, got, GotBytes(r));
  }

  // ---------------------------------------------------------------- sending

  // Takes(k): the socket accepts k bytes, but at least one and no more than it is offered.
  datatype Departure = Takes(k: nat) | Full | SendError

  datatype Sent = Took(n: nat) | Blocked | Broken

  function Share(k: nat, n: nat): (m: nat)
    requires n > 0
    ensures 0 < m <= n
  {
    if k == 0 then 1 else if k <= n then k else n
  }

  // One send() of n bytes.
  function SendGives(script: seq<Departure>, n: nat): Sent
    requires n > 0
  {
    if script == [] then Blocked
    else
      match script[0]
      case Full => Blocked
      case SendError => Broken
      case Takes(k) => Took(Share(k, n))
  }

  function SendLeaves(script: seq<Departure>): seq<Departure> {
    if script == [] then [] else script[1..]
  }

  class OutSocket {
    var script: seq<Departure>
    ghost var sent: seq<byte>      // every byte send() has accepted so far

    constructor (script: seq<Departure>)
      ensures this.script == script && sent == []
    {
      this.script := script;
      sent := [];
    }

    method Send(data: seq<byte>) returns (r: Sent)
      requires data != []
      modifies this
      ensures r == SendGives(old(script), |data|) && script == SendLeaves(old(script))
      ensures r.Took? ==> 0 < r.n <= |data|
      ensures sent == if r.Took? then old(sent) + data[..r.n] else old(sent)
    {
      r := SendGives(script, |data|);
      script := SendLeaves(script);
      if r.Took? {
        sent := sent + data[..r.n];
      }
    }
  }

  // ---------------------------------------------------------------- sending all of it

  // Why a loop over send() ends: everything is sent, the socket is full, or it is broken.
  datatype End = All | Stuck | Dead

  datatype Run = Run(left: nat, script: seq<Departure>, end: End)

  // Sending n bytes in as many turns as it takes.
  function SendAll(script: seq<Departure>, n: nat): (r: Run)
    ensures r.left <= n && (r.end.All? <==> r.left == 0)
    decreases |script|
  {
    if n == 0 then Run(0, script, All)
    else
      match SendGives(script, n)
      case Blocked => Run(n, SendLeaves(script), Stuck)
      case Broken => Run(n, SendLeaves(script), Dead)
      case Took(m) => SendAll(script[1..], n - m)
  }

  // The result code of a send loop.
  function Code(e: End): int {
    match e
    case All => 1
    case Stuck => 0
    case Dead => -1
  }

  // What the socket takes before it hesitates, and what it does then.
  function Offer(script: seq<Departure>): nat {
    if script == [] || !script[0].Takes? then 0
    else (if script[0].k == 0 then 1 else script[0].k) + Offer(script[1..])
  }

  function Obstacle(script: seq<Departure>): (e: End)
    ensures !e.All?
  {
    if script == [] then Stuck
    else
      match script[0]
      case Takes(_) => Obstacle(script[1..])
      case Full => Stuck
      case SendError => Dead
  }

  // The loop sends as much as the socket takes, and ends for the reason the socket has.
  lemma {:induction false} SendAllMeans(script: seq<Departure>, n: nat)
    ensures var r := SendAll(script, n);
            && r.left == (if n <= Offer(script) then 0 else n - Offer(script))
            && r.end == (if n <= Offer(script) then All else Obstacle(script))
    decreases |script|
  {
    if n > 0 && script != [] && script[0].Takes? {
      SendAllMeans(script[1..], n - Share(script[0].k, n));
    }
  }

  lemma {:induction false} CodeMeans(script: seq<Departure>, n: nat)
    ensures Code(SendAll(script, n).end)
            == if n <= Offer(script) then 1 else if Obstacle(script).Dead? then -1 else 0
  {
    SendAllMeans(script, n);
  }

  // ---------------------------------------------------------------- several loops in a row

  // What a sender has met between two moments: sends that took at least a byte each, and then, if it
  // gave up, the socket's reason: it was full (or had nothing more to say), or it broke.
  predicate Met(before: seq<Departure>, after: seq<Departure>, bytes: nat, end: End) {
    || (end.All? && before == after)
    || (end.Stuck? && before == after == [])
    || (before != [] &&
        match before[0]
        case Takes(_) => bytes > 0 && Met(before[1..], after, bytes - 1, end)
        case Full => end.Stuck? && after == before[1..]
        case SendError => end.Dead? && after == before[1..])
  }

  lemma {:induction false} MetMore(a: seq<Departure>, b: seq<Departure>, c: seq<Departure>, m: nat, n: nat, end: End)
    requires Met(a, b, m, All) && Met(b, c, n, end)
    ensures Met(a, c, m + n, end)
    decreases |a| + m
  {
    if a != b {
      MetMore(a[1..], b, c, m - 1, n, end);
    } else if m > 0 {
      MetMore(a, b, c, m - 1, n, end);
      MetRelaxed(a, c, m - 1 + n, end);
    }
  }

  lemma {:induction false} MetRelaxed(a: seq<Departure>, b: seq<Departure>, n: nat, end: End)
    requires Met(a, b, n, end)
    ensures Met(a, b, n + 1, end)
  {
    if a != [] && a[0].Takes? && n > 0 && Met(a[1..], b, n - 1, end) {
      MetRelaxed(a[1..], b, n - 1, end);
    }
  }

  lemma {:induction false} SendAllMet(script: seq<Departure>, n: nat)
    ensures var r := SendAll(script, n); Met(script, r.script, n - r.left, r.end)
    decreases |script|
  {
    if n > 0 && script != [] && script[0].Takes? {
      var m := Share(script[0].k, n);
      var r := SendAll(script[1..], n - m);
      SendAllMet(script[1..], n - m);
      MetBy(script[1..], r.script, n - m - r.left, r.end, m - 1);
    }
  }

  lemma {:induction false} MetBy(a: seq<Departure>, b: seq<Departure>, n: nat, end: End, more: nat)
    requires Met(a, b, n, end)
    ensures Met(a, b, n + more, end)
  {
    if more > 0 {
      MetBy(a, b, n, end, more - 1);
      MetRelaxed(a, b, n + more - 1, end);
    }
  }

  predicate Takers(ds: seq<Departure>) {
    forall i :: 0 <= i < |ds| ==> ds[i].Takes?
  }

  // A sender gives a socket up as broken only on its error, and as full only when it was full or had
  // nothing more to say; so never, if it takes something in every turn, before it has taken as many
  // bytes as it had turns.
  ghost predicate Justified(before: seq<Departure>, after: seq<Departure>, bytes: nat, end: End) {
    && (end.Dead? ==> SendError in before)
    && (end.Stuck? ==> Full in before || after == [])
    && (Takers(before) && bytes < |before| ==> end.All?)
  }

  lemma {:induction false} MetIsJustified(before: seq<Departure>, after: seq<Departure>, bytes: nat, end: End)
    requires Met(before, after, bytes, end)
    ensures Justified(before, after, bytes, end)
  {
    if before != [] && before[0].Takes? && bytes > 0 && Met(before[1..], after, bytes - 1, end) {
      MetIsJustified(before[1..], after, bytes - 1, end);
      assert Takers(before) ==> Takers(before[1..]);
    }
  }
}
