// The incremental UTF-8 checker: src/ws.c, against section 3 of RFC 3629.
module Utf8 {
  import opened Bytes

  // ---------------------------------------------------------------- the byte automaton

  // The range allowed for the next continuation byte; narrower after E0, ED, F0 and F4.
  datatype Kind = NoChar | General | AfterE0 | AfterED | AfterF0 | AfterF4

  datatype State = State(need: nat, kind: Kind)

  const START := State(0, NoChar)

  // One byte: the new state, or None when the byte cannot continue the text.
  function Step(st: State, b: byte): Option<State> {
    if st.need == 0 then
      if b <= 0x7F then Some(st)
      else if 0xC2 <= b <= 0xDF then Some(State(1, General))
      else if b == 0xE0 then Some(State(2, AfterE0))
      else if 0xE1 <= b <= 0xEC then Some(State(2, General))
      else if b == 0xED then Some(State(2, AfterED))
      else if 0xEE <= b <= 0xEF then Some(State(2, General))
      else if b == 0xF0 then Some(State(3, AfterF0))
      else if 0xF1 <= b <= 0xF3 then Some(State(3, General))
      else if b == 0xF4 then Some(State(3, AfterF4))
      else None
    else if Low(st.kind) <= b <= High(st.kind) then Some(State(st.need - 1, General))
    else None
  }

  function Low(k: Kind): byte {
    match k
    case AfterE0 => 0xA0
    case AfterF0 => 0x90
    case _ => 0x80
  }

  function High(k: Kind): byte {
    match k
    case AfterED => 0x9F
    case AfterF4 => 0x8F
    case _ => 0xBF
  }

  // A whole run of bytes. `good` is false from the first impossible byte on, and `st` is then
  // the state in which that byte was met.
  datatype Fed = Fed(good: bool, st: State)

  function Feed(st: State, p: seq<byte>): Fed
    decreases |p|
  {
    if p == [] then Fed(true, st)
    else match Step(st, p[0])
      case None => Fed(false, st)
      case Some(st') => Feed(st', p[1..])
  }

  predicate Done(st: State) {
    st.need == 0
  }

  predicate Accepts(text: seq<byte>) {
    var r := Feed(START, text);
    r.good && Done(r.st)
  }

  // wsUtf8Feed: byte by byte, stopping at the first bad one.
  method FeedBytes(st0: State, p: seq<byte>) returns (good: bool, st: State)
    ensures Fed(good, st) == Feed(st0, p)
  {
    st := st0;
    for i := 0 to |p|
      invariant Feed(st0, p) == Feed(st, p[i..])
    {
      assert p[i..][0] == p[i] && p[i..][1..] == p[i + 1..];
      match Step(st, p[i]) {
        case None => return false, st;
        case Some(next) => st := next;
      }
    }
    good := true;
  }

  // ---------------------------------------------------------------- chunking

  // Feeding in two pieces is feeding at once.
  lemma {:induction false} FeedConcat(st: State, a: seq<byte>, b: seq<byte>)
    ensures Feed(st, a + b) == (var r := Feed(st, a); if r.good then Feed(r.st, b) else r)
    decreases |a|
  {
    if a == [] {
      assert a + b == b;
    } else {
      assert (a + b)[0] == a[0] && (a + b)[1..] == a[1..] + b;
      match Step(st, a[0]) {
        case None =>
        case Some(st') => FeedConcat(st', a[1..], b);
      }
    }
  }

  // The checker fed chunk by chunk, as fragments arrive.
  function FeedChunks(st: State, chunks: seq<seq<byte>>): Fed
    decreases |chunks|
  {
    if chunks == [] then Fed(true, st)
    else
      var r := Feed(st, chunks[0]);
      if r.good then FeedChunks(r.st, chunks[1..]) else r
  }

  // The verdict and the final state do not depend on how the text is cut.
  lemma {:induction false} FeedChunksIsFeed(st: State, chunks: seq<seq<byte>>)
    ensures FeedChunks(st, chunks) == Feed(st, Flatten(chunks))
    decreases |chunks|
  {
    if chunks != [] {
      FeedConcat(st, chunks[0], Flatten(chunks[1..]));
      var r := Feed(st, chunks[0]);
      if r.good {
        FeedChunksIsFeed(r.st, chunks[1..]);
      }
    }
  }

  // ---------------------------------------------------------------- Unicode scalar values

  type scalar = v: int | 0 <= v <= 0x10FFFF && !(0xD800 <= v <= 0xDFFF)

  function EncodeScalar(v: scalar): seq<byte> {
    if v <= 0x7F then [v]
    else if v <= 0x7FF then [0xC0 + v / 64, 0x80 + v % 64]
    else if v <= 0xFFFF then [0xE0 + v / 4096, 0x80 + v / 64 % 64, 0x80 + v % 64]
    else [0xF0 + v / 262144, 0x80 + v / 4096 % 64, 0x80 + v / 64 % 64, 0x80 + v % 64]
  }

  function Encode(vs: seq<scalar>): seq<byte> {
    if vs == [] then [] else EncodeScalar(vs[0]) + Encode(vs[1..])
  }

  ghost predicate WellFormed(text: seq<byte>) {
    exists vs: seq<scalar> :: Encode(vs) == text
  }

  // The first and the last value of each length, and the two around the surrogates.
  lemma {:induction false} FirstAndLast()
    ensures EncodeScalar(0x00) == [0x00] && EncodeScalar(0x7F) == [0x7F]
    ensures EncodeScalar(0x80) == [0xC2, 0x80] && EncodeScalar(0x7FF) == [0xDF, 0xBF]
    ensures EncodeScalar(0x800) == [0xE0, 0xA0, 0x80] && EncodeScalar(0xFFFF) == [0xEF, 0xBF, 0xBF]
    ensures EncodeScalar(0xD7FF) == [0xED, 0x9F, 0xBF] && EncodeScalar(0xE000) == [0xEE, 0x80, 0x80]
    ensures EncodeScalar(0x10000) == [0xF0, 0x90, 0x80, 0x80] && EncodeScalar(0x10FFFF) == [0xF4, 0x8F, 0xBF, 0xBF]
  {
  }

  // What lies just outside, whatever follows: overlong forms, surrogates, values that are too large.
  lemma {:induction false} JustOutside(more: seq<byte>)
    ensures !Accepts([0x80] + more) && !Accepts([0xC1] + more) && !Accepts([0xF5] + more)
    ensures !Accepts([0xE0, 0x9F] + more) && !Accepts([0xED, 0xA0] + more)
    ensures !Accepts([0xF0, 0x8F] + more) && !Accepts([0xF4, 0x90] + more)
  {
    SecondRefused(0xE0, 0x9F, more);
    SecondRefused(0xED, 0xA0, more);
    SecondRefused(0xF0, 0x8F, more);
    SecondRefused(0xF4, 0x90, more);
  }

  lemma {:induction false} SecondRefused(a: byte, b: byte, more: seq<byte>)
    requires match Step(START, a) case None => true case Some(st) => Step(st, b) == None
    ensures !Accepts([a, b] + more)
  {
    assert ([a, b] + more)[1..] == [b] + more;
    Feed1(START, [a, b] + more);
    if Step(START, a).Some? {
      Feed1(Step(START, a).value, [b] + more);
    }
  }

  lemma Feed1(st: State, p: seq<byte>)
    requires p != []
    ensures Feed(st, p) == match Step(st, p[0]) case None => Fed(false, st) case Some(st') => Feed(st', p[1..])
  {
  }

  // Every encoded scalar takes the automaton from a character boundary to a character boundary.
  lemma FeedScalar(st: State, v: scalar)
    requires Done(st)
    ensures var r := Feed(st, EncodeScalar(v)); r.good && Done(r.st)
  {
    var e := EncodeScalar(v);
    if |e| == 1 {
      Feed1(st, e);
    } else {
      var s1 := Step(st, e[0]).value;
      assert s1.need == |e| - 1;
      FeedTail(s1, e[1..]);
    }
  }

  // Once the lead byte is in, only ranges matter.
  lemma {:induction false} FeedTail(st: State, p: seq<byte>)
    requires st.need == |p| && p != []
    requires Low(st.kind) <= p[0] <= High(st.kind)
    requires forall i :: 1 <= i < |p| ==> 0x80 <= p[i] <= 0xBF
    ensures Feed(st, p).good && Done(Feed(st, p).st)
    decreases |p|
  {
    Feed1(st, p);
    if |p| > 1 {
      FeedTail(Step(st, p[0]).value, p[1..]);
    }
  }

  lemma {:induction false} FeedEncoded(st: State, vs: seq<scalar>)
    requires Done(st)
    ensures var r := Feed(st, Encode(vs)); r.good && Done(r.st)
    decreases |vs|
  {
    if vs != [] {
      FeedScalar(st, vs[0]);
      FeedConcat(st, EncodeScalar(vs[0]), Encode(vs[1..]));
      FeedEncoded(Feed(st, EncodeScalar(vs[0])).st, vs[1..]);
    }
  }

  // The length the lead byte announces.
  function CharLen(b: byte): nat {
    if b <= 0x7F then 1 else if b <= 0xDF then 2 else if b <= 0xEF then 3 else 4
  }

  // What a good run says about the first n bytes it took in the middle of a character.
  lemma {:induction false} TailBytes(st: State, p: seq<byte>)
    requires st.need > 0 && Feed(st, p).good && Done(Feed(st, p).st)
    ensures |p| >= st.need
    ensures Low(st.kind) <= p[0] <= High(st.kind)
    ensures forall i :: 1 <= i < st.need ==> 0x80 <= p[i] <= 0xBF
    ensures Done(Feed(st, p[..st.need]).st)
    ensures Feed(st, p) == Feed(State(0, General), p[st.need..])
    decreases |p|
  {
    Feed1(st, p);
    var st' := Step(st, p[0]).value;
    if st'.need > 0 {
      TailBytes(st', p[1..]);
      assert p[1..][st'.need..] == p[st.need..];
      assert p[1..][..st'.need] == p[..st.need][1..];
      forall i | 1 <= i < st.need ensures 0x80 <= p[i] <= 0xBF {
        assert p[i] == p[1..][i - 1];
      }
    } else {
      assert p[..1][1..] == [];
    }
  }

  function DecodeOne(e: seq<byte>): int
    requires 1 <= |e| <= 4
  {
    if |e| == 1 then e[0] as int
    else if |e| == 2 then (e[0] as int - 0xC0) * 64 + (e[1] as int - 0x80)
    else if |e| == 3 then (e[0] as int - 0xE0) * 4096 + (e[1] as int - 0x80) * 64 + (e[2] as int - 0x80)
    else (e[0] as int - 0xF0) * 262144 + (e[1] as int - 0x80) * 4096 + (e[2] as int - 0x80) * 64 + (e[3] as int - 0x80)
  }

  // An accepted text starts with the encoding of a scalar value, and the rest is accepted.
  lemma FirstScalar(st: State, p: seq<byte>) returns (v: scalar)
    requires Done(st) && p != [] && Feed(st, p).good && Done(Feed(st, p).st)
    ensures |EncodeScalar(v)| <= |p| && p[..|EncodeScalar(v)|] == EncodeScalar(v)
    ensures var rest := p[|EncodeScalar(v)|..];
            exists st' :: Done(st') && Feed(st', rest) == Feed(st, p)
  {
    Feed1(st, p);
    var st1 := Step(st, p[0]).value;
    if p[0] <= 0x7F {
      v := p[0];
      assert p[..1] == [p[0]];
    } else {
      TailBytes(st1, p[1..]);
      var n := CharLen(p[0]);
      assert st1.need == n - 1;
      var e := p[..n];
      assert forall i :: 1 <= i < n ==> e[i] == p[1..][i - 1];
      v := ScalarOf(e);
      assert p[1..][n - 1..] == p[n..];
      assert Done(State(0, General));
    }
  }

  lemma SixBitDigits(a: nat, b: nat, c: nat, d: nat)
    requires b < 64 && c < 64 && d < 64
    ensures var v := a * 262144 + b * 4096 + c * 64 + d;
            v / 262144 == a && v / 4096 % 64 == b && v / 64 % 64 == c && v % 64 == d
  {
    var v := a * 262144 + b * 4096 + c * 64 + d;
    assert v / 64 == a * 4096 + b * 64 + c;
    assert v / 4096 == a * 64 + b;
  }

  ghost predicate TailInRange(e: seq<byte>) {
    forall i :: 2 <= i < |e| ==> 0x80 <= e[i] <= 0xBF
  }

  lemma ScalarOf2(e: seq<byte>) returns (v: scalar)
    requires |e| == 2 && 0xC2 <= e[0] <= 0xDF && 0x80 <= e[1] <= 0xBF
    ensures EncodeScalar(v) == e
  {
    SixBitDigits(0, 0, e[0] - 0xC0, e[1] - 0x80);
    v := DecodeOne(e);
  }

  lemma ScalarOf3(e: seq<byte>) returns (v: scalar)
    requires |e| == 3 && 0xE0 <= e[0] <= 0xEF && 0x80 <= e[1] <= 0xBF && 0x80 <= e[2] <= 0xBF
    requires e[0] == 0xE0 ==> 0xA0 <= e[1]
    requires e[0] == 0xED ==> e[1] <= 0x9F
    ensures EncodeScalar(v) == e
  {
    SixBitDigits(0, e[0] - 0xE0, e[1] - 0x80, e[2] - 0x80);
    v := DecodeOne(e);
    assert EncodeScalar(v) == [e[0], e[1], e[2]];
  }

  lemma ScalarOf4(e: seq<byte>) returns (v: scalar)
    requires |e| == 4 && 0xF0 <= e[0] <= 0xF4 && 0x80 <= e[1] <= 0xBF && 0x80 <= e[2] <= 0xBF && 0x80 <= e[3] <= 0xBF
    requires e[0] == 0xF0 ==> 0x90 <= e[1]
    requires e[0] == 0xF4 ==> e[1] <= 0x8F
    ensures EncodeScalar(v) == e
  {
    SixBitDigits(e[0] - 0xF0, e[1] - 0x80, e[2] - 0x80, e[3] - 0x80);
    v := DecodeOne(e);
    assert EncodeScalar(v) == [e[0], e[1], e[2], e[3]];
  }

  lemma ScalarOf(e: seq<byte>) returns (v: scalar)
    requires 2 <= |e| <= 4
    requires Step(START, e[0]).Some?
    requires var s := Step(START, e[0]).value; s.need == |e| - 1 && Low(s.kind) <= e[1] <= High(s.kind)
    requires TailInRange(e)
    ensures EncodeScalar(v) == e
  {
    if |e| == 2 {
      v := ScalarOf2(e);
    } else if |e| == 3 {
      v := ScalarOf3(e);
    } else {
      v := ScalarOf4(e);
    }
  }

  lemma {:induction false} AcceptedIsEncoded(st: State, p: seq<byte>) returns (vs: seq<scalar>)
    requires Done(st) && Feed(st, p).good && Done(Feed(st, p).st)
    ensures Encode(vs) == p
    decreases |p|
  {
    if p == [] {
      vs := [];
    } else {
      var v := FirstScalar(st, p);
      var n := |EncodeScalar(v)|;
      var st' :| Done(st') && Feed(st', p[n..]) == Feed(st, p);
      var rest := AcceptedIsEncoded(st', p[n..]);
      vs := [v] + rest;
      assert p == p[..n] + p[n..];
    }
  }

  // The automaton accepts exactly the encodings of sequences of Unicode scalar values.
  lemma AcceptsIffWellFormed(text: seq<byte>)
    ensures Accepts(text) <==> WellFormed(text)
  {
    if Accepts(text) {
      var vs := AcceptedIsEncoded(START, text);
    }
    if WellFormed(text) {
      var vs: seq<scalar> :| Encode(vs) == text;
      FeedEncoded(START, vs);
    }
  }

  // ---------------------------------------------------------------- failing exactly in time

  // Bytes that finish the character in progress.
  function Completion(st: State): seq<byte> {
    if st.need == 0 then [] else [Low(st.kind)] + seq(st.need - 1, _ => 0x80)
  }

  // The checker refuses a prefix exactly when no continuation could make it well formed, so an
  // invalid message is refused at the earliest byte, and a valid one is never refused.
  lemma FailsAsEarlyAsPossible(prefix: seq<byte>)
    ensures Feed(START, prefix).good <==> exists more: seq<byte> :: WellFormed(prefix + more)
  {
    var r := Feed(START, prefix);
    if r.good {
      var more := Completion(r.st);
      if r.st.need > 0 {
        FeedTail(r.st, more);
      }
      FeedConcat(START, prefix, more);
      AcceptsIffWellFormed(prefix + more);
    } else {
      forall more: seq<byte> ensures !WellFormed(prefix + more) {
        FeedConcat(START, prefix, more);
        AcceptsIffWellFormed(prefix + more);
      }
    }
  }
}
