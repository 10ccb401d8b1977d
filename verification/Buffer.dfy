// The growable buffer of src/conn.c. Its unread view is a byte sequence, and every operation is an
// operation on that sequence.
module Buffers {
  import opened Bytes
  import opened Sockets

  function Max(a: nat, b: nat): nat {
    if a > b then a else b
  }

  class Buf {
    var p: array<byte>       // p.Length is the capacity
    var len: nat             // filled, counting what has been consumed
    var off: nat             // consumed

    ghost predicate Valid()
      reads this
    {
      off <= len <= p.Length
    }

    ghost function View(): seq<byte>
      reads this, p
      requires Valid()
    {
      p[off..len]
    }

    constructor ()
      ensures Valid() && View() == [] && p.Length == 0 && fresh(p)
    {
      p := new byte[0];
      len, off := 0, 0;
    }

    method Compact()
      requires Valid()
      modifies this`len, this`off, p
      ensures Valid() && View() == old(View()) && off == 0
    {
      if off == 0 {
        return;
      }
      var remain := len - off;
      forall i | 0 <= i < remain {
        p[i] := p[off + i];
      }
      len, off := remain, 0;
    }

    // Unread bytes from .. to, as the parsers see them through bufData.
    method Peek(from: nat, to: nat) returns (bytes: seq<byte>)
      requires Valid() && from <= to <= |View()|
      ensures bytes == View()[from..to]
    {
      bytes := p[off + from..off + to];
      forall i | 0 <= i < to - from ensures bytes[i] == View()[from..to][i] {
        assert View()[from + i] == p[off + from + i];
      }
    }

    // Room for `extra` more bytes; -1, here false, exactly when a hard cap forbids it.
    method Reserve(extra: nat, hardCap: nat) returns (ok: bool)
      requires Valid()
      modifies this, p
      ensures Valid() && View() == old(View())
      ensures p == old(p) || fresh(p)
      ensures ok ==> p.Length - len >= extra
      ensures !ok <==> hardCap != 0 && old(p.Length) < |View()| + extra && |View()| + extra > hardCap
      ensures old(p.Length) <= p.Length
      ensures hardCap != 0 ==> p.Length <= Max(old(p.Length), hardCap)
    {
      if p.Length - len >= extra {
        return true;
      }
      Compact();
      if p.Length - len >= extra {
        return true;
      }
      var need := len + extra;
      var newCap := if p.Length > 0 then p.Length else 256;
      while newCap < need
        invariant newCap > 0 && newCap >= p.Length
        decreases need - newCap
      {
        newCap := newCap * 2;
      }
      if hardCap != 0 && newCap > hardCap {
        if need > hardCap {
          return false;
        }
        newCap := hardCap;
      }
      var np := new byte[newCap](_ => 0);
      forall i | 0 <= i < len {
        np[i] := p[i];
      }
      p := np;
      ok := true;
    }

    method Consume(n: nat)
      requires Valid()
      modifies this`len, this`off
      ensures Valid() && p == old(p)
      ensures View() == if n <= |old(View())| then old(View())[n..] else []
    {
      off := off + n;
      if off >= len {
        off, len := 0, 0;
      }
    }

    // Bytes written behind the last one, where Reserve has made room.
    method Store(data: seq<byte>)
      requires Valid() && |data| <= p.Length - len
      modifies this`len, p
      ensures Valid() && View() == old(View()) + data && len == old(len) + |data|
    {
      forall i | 0 <= i < |data| {
        p[len + i] := data[i];
      }
      len := len + |data|;
      assert p[off..len - |data|] == old(View());
      assert p[len - |data|..len] == data;
    }

    method Append(data: seq<byte>)
      requires Valid()
      modifies this, p
      ensures Valid() && View() == old(View()) + data
      ensures p == old(p) || fresh(p)
    {
      if |data| == 0 {
        return;
      }
      var ok := Reserve(|data|, 0);
      Store(data);
    }

    method Reset()
      requires Valid()
      modifies this`len, this`off
      ensures Valid() && View() == [] && p == old(p)
    {
      len, off := 0, 0;
    }
  }

  // bufRecv: 1 read something, 2 read something and then the peer closed, 0 nothing yet, -1 closed
  // without data, -2 the hard cap leaves no room for another chunk. `got` is what was read.
  method BufRecv(s: InSocket, b: Buf, chunk: nat, hardCap: nat) returns (rc: int, ghost got: seq<byte>)
    requires b.Valid() && chunk > 0
    modifies s, b, b.p
    ensures b.Valid() && (b.p == old(b.p) || fresh(b.p))
    ensures s.taken == old(s.taken) + got && b.View() == old(b.View()) + got
    ensures rc in {-2, -1, 0, 1, 2}
    // It reads until the socket has nothing more, or has ended,
    ensures rc in {0, 1} ==> s.script == [] && !Ends(old(s.script)) && got == Incoming(old(s.script))
    ensures rc in {-1, 2} ==> s.script == Beyond(old(s.script)) && Ends(old(s.script)) && got == Incoming(old(s.script))
    ensures rc != -2 ==> (rc in {1, 2} <==> got != [])
    // or the cap is reached, whatever is still to come.
    ensures rc == -2 ==> hardCap != 0 && |b.View()| + chunk > hardCap
    ensures rc == -2 ==> Came(old(s.script), got, s.script)
    ensures hardCap != 0 ==> b.p.Length <= Max(old(b.p.Length), hardCap)
  {
    got := [];
    var any := false;
    while true
      invariant b.Valid() && (b.p == old(b.p) || fresh(b.p))
      invariant s.taken == old(s.taken) + got && b.View() == old(b.View()) + got
      invariant (any <==> got != []) && Came(old(s.script), got, s.script)
      invariant hardCap != 0 ==> b.p.Length <= Max(old(b.p.Length), hardCap)
      decreases Weight(s.script)
    {
      var ok := b.Reserve(chunk, hardCap);
      if !ok {
        return -2, got;
      }
      var r := RecvMore(s, b.p.Length - b.len, old(s.script), old(s.taken), got);
      match r {
        case Got(bytes) =>
          Assoc(old(b.View()), got, bytes);
          b.Store(bytes);
          got := got + bytes;
          any := true;
        case Closed =>
          return if any then 2 else -1, got;
        case Failed =>
          return if any then 2 else -1, got;
        case WouldBlock =>
          return if any then 1 else 0, got;
      }
    }
  }

  // One send: what the socket takes leaves the buffer.
  method SendOnce(s: OutSocket, b: Buf) returns (r: Sent)
    requires b.Valid() && b.View() != []
    modifies s, b`len, b`off
    ensures b.Valid() && b.p == old(b.p)
    ensures r == SendGives(old(s.script), |old(b.View())|) && s.script == SendLeaves(old(s.script))
    ensures s.sent + b.View() == old(s.sent + b.View())
    ensures |b.View()| == |old(b.View())| - (if r.Took? then r.n else 0)
  {
    ghost var sent, view := s.sent, b.View();
    r := s.Send(b.p[b.off..b.len]);
    if r.Took? {
      b.Consume(r.n);
      TakenOff(sent, view, r.n);
    }
  }

  lemma {:induction false} TakenOff(sent: seq<byte>, view: seq<byte>, n: nat)
    requires n <= |view|
    ensures sent + view[..n] + view[n..] == sent + view
  {
  }

  // bufSend: 1 everything sent, 0 would block, -1 broken. Bytes leave in order, none is lost, and as
  // many leave as the socket takes.
  method BufSend(s: OutSocket, b: Buf) returns (rc: int)
    requires b.Valid()
    modifies s, b`len, b`off
    ensures b.Valid() && b.p == old(b.p)
    ensures s.sent + b.View() == old(s.sent + b.View())
    ensures var run := SendAll(old(s.script), |old(b.View())|);
            rc == Code(run.end) && |b.View()| == run.left && s.script == run.script
    ensures rc == 1 <==> |old(b.View())| <= Offer(old(s.script))
    ensures rc == 1 <==> b.View() == []
    ensures rc == 0 <==> b.View() != [] && Obstacle(old(s.script)).Stuck?
    ensures rc == -1 <==> b.View() != [] && Obstacle(old(s.script)).Dead?
  {
    SendAllMeans(s.script, |b.View()|);
    while b.len - b.off > 0
      invariant b.Valid() && b.p == old(b.p)
      invariant s.sent + b.View() == old(s.sent + b.View())
      invariant SendAll(s.script, |b.View()|) == SendAll(old(s.script), |old(b.View())|)
      decreases |b.View()|
    {
      var r := SendOnce(s, b);
      match r {
        case Took(_) =>
        case Blocked => return 0;
        case Broken => return -1;
      }
    }
    rc := 1;
  }
}
