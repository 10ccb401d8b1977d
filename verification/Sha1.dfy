// The streaming SHA-1 of src/sha1.c, against sections 4 to 6 of RFC 3174.
module Sha1 {
  import opened Bytes

  // ---------------------------------------------------------------- 32-bit words

  // Additions wrap.
  type word = bv32

  // rotl32
  function Rotl(x: word, n: bv6): word
    requires 0 < n < 32
  {
    (x << n) | (x >> (32 - n))
  }

  function Wide(b: byte): word {
    b as bv8 as word
  }

  // Four bytes as a word, most significant first.
  function WordAt(p: seq<byte>, i: nat): word
    requires i + 4 <= |p|
  {
    (Wide(p[i]) << 24) | (Wide(p[i + 1]) << 16) | (Wide(p[i + 2]) << 8) | Wide(p[i + 3])
  }

  function WordBytes(w: word): (s: seq<byte>)
    ensures |s| == 4
  {
    [(w >> 24) as bv8 as byte, ((w >> 16) & 0xFF) as bv8 as byte, ((w >> 8) & 0xFF) as bv8 as byte,
     (w & 0xFF) as bv8 as byte]
  }

  // ---------------------------------------------------------------- one block

  datatype Hash = Hash(a: word, b: word, c: word, d: word, e: word)
  {
    function Plus(r: Hash): Hash {
      Hash(a + r.a, b + r.b, c + r.c, d + r.d, e + r.e)
    }
  }

  const INIT := Hash(0x67452301, 0xEFCDAB89, 0x98BADCFE, 0x10325476, 0xC3D2E1F0)

  function Mix(x: word, y: word, z: word, w: word): word {
    Rotl(x ^ y ^ z ^ w, 1)
  }

  function FirstWords(block: seq<byte>): (m: seq<word>)
    requires |block| == 64
    ensures |m| == 16
  {
    seq(16, t requires 0 <= t < 16 => WordAt(block, 4 * t))
  }

  // Word t of the schedule that begins with these words.
  function Word(m: seq<word>, t: nat): word
    requires |m| == 16
  {
    if t < 16 then m[t] else Mix(Word(m, t - 3), Word(m, t - 8), Word(m, t - 14), Word(m, t - 16))
  }

  function Schedule(m: seq<word>): (w: seq<word>)
    requires |m| == 16
    ensures |w| == 80
  {
    seq(80, t requires 0 <= t < 80 => Word(m, t))
  }

  function F(t: nat, b: word, c: word, d: word): word {
    if t < 20 then (b & c) | (!b & d)
    else if t < 40 then b ^ c ^ d
    else if t < 60 then (b & c) | (b & d) | (c & d)
    else b ^ c ^ d
  }

  function K(t: nat): word {
    if t < 20 then 0x5A827999 else if t < 40 then 0x6ED9EBA1 else if t < 60 then 0x8F1BBCDC else 0xCA62C1D6
  }

  function Temp(a: word, f: word, e: word, k: word, w: word): word {
    Rotl(a, 5) + f + e + k + w
  }

  function Round(h: Hash, t: nat, w: word): Hash {
    Hash(Temp(h.a, F(t, h.b, h.c, h.d), h.e, K(t), w), h.a, Rotl(h.b, 30), h.c, h.d)
  }

  // One round for each of these words.
  function Rounds(h: Hash, w: seq<word>): Hash {
    if w == [] then h
    else
      var t := |w| - 1;
      Round(Rounds(h, w[..t]), t, w[t])
  }

  function Block(h: Hash, block: seq<byte>): Hash
    requires |block| == 64
  {
    h.Plus(Rounds(h, Schedule(FirstWords(block))))
  }

  // ---------------------------------------------------------------- a whole message

  type chunk = s: seq<byte> | |s| == 64 witness seq(64, _ => 0)

  // The hash after a run of blocks.
  function Fold(h: Hash, bs: seq<chunk>): Hash {
    if bs == [] then h else Block(Fold(h, bs[..|bs| - 1]), bs[|bs| - 1])
  }

  // A text cut into blocks.
  function Blocks(p: seq<byte>): seq<chunk>
    decreases |p|
  {
    if |p| < 64 then [] else [p[..64]] + Blocks(p[64..])
  }

  // Section 4: a one bit, zeros up to eight bytes short of a whole block, the length in bits.
  function Zs(n: nat): (s: seq<byte>)
    ensures |s| == n
  {
    seq(n, _ => 0)
  }

  // t is how far the message reaches into its last block.
  function PadFrom(t: nat, len: seq<byte>): (s: seq<byte>)
    requires t < 64 && |len| == 8
    ensures (t + |s|) % 64 == 0 && |s| <= 72
  {
    [0x80] + Zs(if t < 56 then 55 - t else 119 - t) + len
  }

  function Padding(n: nat): seq<byte> {
    PadFrom(n % 64, BigEndian(8 * n, 8))
  }

  function HashBytes(h: Hash): (s: seq<byte>)
    ensures |s| == 20
  {
    WordBytes(h.a) + WordBytes(h.b) + WordBytes(h.c) + WordBytes(h.d) + WordBytes(h.e)
  }

  function Digest(m: seq<byte>): (s: seq<byte>)
    ensures |s| == 20
  {
    HashBytes(Fold(INIT, Blocks(m + Padding(|m|))))
  }

  // ---------------------------------------------------------------- the streaming form

  function Joined(bs: seq<chunk>): (p: seq<byte>)
    ensures |p| == 64 * |bs|
  {
    if bs == [] then [] else Joined(bs[..|bs| - 1]) + bs[|bs| - 1]
  }

  lemma {:induction false} JoinedAdd(bs: seq<chunk>, b: chunk)
    ensures Joined(bs + [b]) == Joined(bs) + b
    ensures Fold(INIT, bs + [b]) == Block(Fold(INIT, bs), b)
  {
    assert (bs + [b])[..|bs|] == bs;
  }

  lemma {:induction false} BlocksAdd(p: seq<byte>, b: chunk)
    requires |p| % 64 == 0
    ensures Blocks(p + b) == Blocks(p) + [b]
    decreases |p|
  {
    if p == [] {
      assert p + b == b && b[..64] == b && Blocks(b[64..]) == [];
    } else {
      assert (p + b)[..64] == p[..64] && (p + b)[64..] == p[64..] + b;
      BlocksAdd(p[64..], b);
    }
  }

  // Cutting what was joined gives back the blocks.
  lemma {:induction false} BlocksOfJoined(bs: seq<chunk>)
    ensures Blocks(Joined(bs)) == bs
  {
    if bs != [] {
      var k := |bs| - 1;
      BlocksOfJoined(bs[..k]);
      BlocksAdd(Joined(bs[..k]), bs[k]);
      assert bs == bs[..k] + [bs[k]];
    }
  }

  ghost predicate Scheduled(w: seq<word>, m: seq<word>)
    requires |m| == 16
  {
    forall t :: 0 <= t < |w| ==> w[t] == Word(m, t)
  }

  lemma {:induction false} NextWord(w: seq<word>, m: seq<word>, x: word)
    requires |m| == 16 && Scheduled(w, m)
    requires var t := |w|; x == if t < 16 then m[t] else Mix(w[t - 3], w[t - 8], w[t - 14], w[t - 16])
    ensures Scheduled(w + [x], m)
  {
    assert x == Word(m, |w|);
  }

  method MakeSchedule(block: seq<byte>) returns (w: array<word>)
    requires |block| == 64
    ensures fresh(w) && w.Length == 80 && w[..] == Schedule(FirstWords(block))
  {
    ghost var m := FirstWords(block);
    w := new word[80];
    for i := 0 to 16
      invariant Scheduled(w[..i], m)
    {
      w[i] := WordAt(block, i * 4);
      NextWord(w[..i], m, w[i]);
      assert w[..i + 1] == w[..i] + [w[i]];
    }
    for i := 16 to 80
      invariant Scheduled(w[..i], m)
    {
      w[i] := Mix(w[i - 3], w[i - 8], w[i - 14], w[i - 16]);
      NextWord(w[..i], m, w[i]);
      assert w[..i + 1] == w[..i] + [w[i]];
    }
    assert w[..80] == w[..];
  }

  // sha1Block: eighty rounds on five variables.
  method HashBlock(h: Hash, block: seq<byte>) returns (h': Hash)
    requires |block| == 64
    ensures h' == Block(h, block)
  {
    var w := MakeSchedule(block);
    ghost var words := Schedule(FirstWords(block));
    var a, b, c, d, e := h.a, h.b, h.c, h.d, h.e;
    for i := 0 to 80
      invariant w[..] == words && Hash(a, b, c, d, e) == Rounds(h, words[..i])
    {
      assert words[..i + 1][..i] == words[..i] && words[i] == w[..][i];
      var temp := Temp(a, F(i, b, c, d), e, K(i), w[i]);
      a, b, c, d, e := temp, a, Rotl(b, 30), c, d;
    }
    assert words[..80] == words;
    h' := h.Plus(Hash(a, b, c, d, e));
  }

  class Hasher {
    var h: Hash
    const buf: array<byte>
    var bufLen: nat
    var totalLen: nat
    ghost var fed: seq<byte>         // everything given to Update
    ghost var hashed: seq<chunk>     // the blocks of it that h stands for

    ghost predicate Between(text: seq<byte>)
      reads this, buf
    {
      buf.Length == 64 && bufLen < 64 && text == Joined(hashed) + buf[..bufLen] && h == Fold(INIT, hashed)
    }

    ghost predicate Valid()
      reads this, buf
    {
      Between(fed) && totalLen == |fed| % TWO64
    }

    // sha1Init
    constructor ()
      ensures Valid() && fresh(buf) && fed == []
    {
      h, bufLen, totalLen := INIT, 0, 0;
      buf := new byte[64];
      fed, hashed := [], [];
    }

    method Absorb(block: chunk)
      requires h == Fold(INIT, hashed)
      modifies this`h, this`hashed
      ensures hashed == old(hashed) + [block] && h == Fold(INIT, hashed)
      ensures Joined(hashed) == Joined(old(hashed)) + block
    {
      JoinedAdd(hashed, block);
      h := HashBlock(h, block);
      hashed := hashed + [block];
    }

    // Bytes that complete the buffer, or all there are.
    method TopUp(data: seq<byte>, ghost text: seq<byte>) returns (take: nat)
      requires Between(text) && bufLen > 0
      modifies this`h, this`hashed, this`bufLen, buf
      ensures take <= |data| && Between(text + data[..take]) && (take < |data| ==> bufLen == 0)
    {
      var need := 64 - bufLen;
      take := if |data| < need then |data| else need;
      CopyInto(buf, bufLen, data[..take]);
      assert buf[..bufLen + take] == old(buf[..bufLen]) + data[..take];
      Assoc(Joined(hashed), old(buf[..bufLen]), data[..take]);
      bufLen := bufLen + take;
      if bufLen == 64 {
        assert buf[..64] == buf[..];
        Absorb(buf[..]);
        bufLen := 0;
        assert Joined(hashed) + [] == Joined(hashed);
      }
    }

    // One whole block straight from the data.
    method TakeBlock(data: seq<byte>, pos: nat, ghost text: seq<byte>)
      requires pos + 64 <= |data| && Between(text + data[..pos]) && bufLen == 0
      modifies this`h, this`hashed
      ensures Between(text + data[..pos + 64])
    {
      assert buf[..bufLen] == [];
      ghost var before := Joined(hashed);
      Absorb(data[pos..pos + 64]);
      NextBlock(text, data, pos, before);
    }

    method TakeBlocks(data: seq<byte>, pos0: nat, ghost text: seq<byte>) returns (pos: nat)
      requires pos0 <= |data| && Between(text + data[..pos0]) && (pos0 < |data| ==> bufLen == 0)
      modifies this`h, this`hashed
      ensures pos0 <= pos <= |data| < pos + 64 && Between(text + data[..pos]) && (pos < |data| ==> bufLen == 0)
    {
      pos := pos0;
      while |data| - pos >= 64
        invariant pos0 <= pos <= |data| && Between(text + data[..pos]) && (pos < |data| ==> bufLen == 0)
      {
        TakeBlock(data, pos, text);
        pos := pos + 64;
      }
    }

    // What is left waits in the buffer.
    method KeepRest(data: seq<byte>, pos: nat, ghost text: seq<byte>)
      requires pos <= |data| < pos + 64 && Between(text + data[..pos]) && (pos < |data| ==> bufLen == 0)
      modifies this`bufLen, buf
      ensures Between(text + data)
    {
      if pos < |data| {
        ghost var before := Joined(hashed);
        CopyInto(buf, 0, data[pos..]);
        bufLen := |data| - pos;
        assert buf[..bufLen] == data[pos..];
        RestOfData(text, data, pos, before);
      } else {
        assert data[..pos] == data;
      }
    }

    // The length counter is 64 bits wide.
    method CountIn(data: seq<byte>)
      requires totalLen == |fed| % TWO64
      modifies this`totalLen, this`fed
      ensures fed == old(fed) + data && totalLen == |fed| % TWO64
    {
      LenWraps(|fed|, |data|);
      totalLen := (totalLen + |data|) % TWO64;
      fed := fed + data;
    }

    // sha1Update
    method Update(data: seq<byte>)
      requires Valid()
      modifies this, buf
      ensures Valid() && fed == old(fed) + data
    {
      ghost var text := fed;
      CountIn(data);
      var pos := 0;
      if bufLen > 0 {
        pos := TopUp(data, text);
      } else {
        assert text + data[..0] == text;
      }
      pos := TakeBlocks(data, pos, text);
      KeepRest(data, pos, text);
    }

    method FillZeros(from: nat, to: nat)
      requires from <= to <= buf.Length == 64
      modifies buf
      ensures buf[..to] == old(buf[..from]) + Zs(to - from)
    {
      for i := from to to
        invariant buf[..from] == old(buf[..from]) && forall k :: from <= k < i ==> buf[k] == 0
      {
        buf[i] := 0;
      }
    }

    method PutLength(bitLen: nat)
      requires buf.Length == 64
      modifies buf
      ensures buf[..] == old(buf[..56]) + BigEndian(bitLen, 8)
    {
      for i := 0 to 8
        invariant buf[..56] == old(buf[..56]) && forall k :: 0 <= k < i ==> buf[56 + k] == BigEndian(bitLen, 8)[k]
      {
        BigEndianAt(bitLen, 8, i);
        buf[56 + i] := bitLen / Pow256(7 - i) % 256;
      }
    }

    // The end mark, and zeros up to where the length goes; a block in between if there is no room.
    method MarkEnd()
      requires Between(fed)
      modifies this`h, this`hashed, buf
      ensures h == Fold(INIT, hashed)
      ensures var t := old(buf[..bufLen]);
              if |t| < 56 then hashed == old(hashed) && buf[..56] == t + [0x80] + Zs(55 - |t|)
              else Joined(hashed) == Joined(old(hashed)) + (t + [0x80] + Zs(63 - |t|)) && buf[..56] == Zs(56)
    {
      ghost var t := buf[..bufLen];
      var idx := bufLen;
      buf[idx] := 0x80;
      idx := idx + 1;
      assert buf[..idx] == t + [0x80];
      if idx > 56 {
        FillZeros(idx, 64);
        assert buf[..64] == buf[..];
        Absorb(buf[..]);
        idx := 0;
        FillZeros(idx, 56);
        assert [] + Zs(56) == Zs(56);
      } else {
        FillZeros(idx, 56);
      }
    }

    // sha1Final
    method Final() returns (out: seq<byte>)
      requires Valid() && |fed| < 0x2000_0000_0000_0000
      modifies this`h, this`hashed, buf
      ensures out == Digest(fed)
    {
      ghost var bs, t := hashed, buf[..bufLen];
      BitLength(|fed|);
      var bitLen := totalLen * 8 % TWO64;
      MarkEnd();
      ghost var front, j := buf[..56], Joined(hashed);
      PutLength(bitLen);
      Absorb(buf[..]);
      PaddedBlocks(fed, bs, t, hashed, j, front);
      out := HashBytes(h);
    }
  }

  // However a message is cut up for Update, its digest is that of the whole message.
  method HashChunks(chunks: seq<seq<byte>>) returns (out: seq<byte>)
    requires |Flatten(chunks)| < 0x2000_0000_0000_0000
    ensures out == Digest(Flatten(chunks))
  {
    var c := new Hasher();
    assert Flatten(chunks[..0]) == [];
    for i := 0 to |chunks|
      invariant c.Valid() && fresh(c) && fresh(c.buf) && c.fed == Flatten(chunks[..i])
    {
      c.Update(chunks[i]);
      FlattenAdd([], chunks[..i], chunks[i]);
      assert chunks[..i + 1] == chunks[..i] + [chunks[i]];
      assert [] + Flatten(chunks[..i]) == Flatten(chunks[..i])
             && [] + Flatten(chunks[..i + 1]) == Flatten(chunks[..i + 1]);
    }
    assert chunks[..|chunks|] == chunks;
    out := c.Final();
  }

  // sha1
  method HashAll(data: seq<byte>) returns (out: seq<byte>)
    requires |data| < 0x2000_0000_0000_0000
    ensures out == Digest(data)
  {
    FlattenOne(data);
    out := HashChunks([data]);
  }

  lemma {:induction false} BitLength(n: nat)
    requires n < 0x2000_0000_0000_0000
    ensures n % TWO64 * 8 % TWO64 == 8 * n
  {
  }

  lemma {:induction false} LenWraps(n: nat, k: nat)
    ensures (n % TWO64 + k) % TWO64 == (n + k) % TWO64
  {
  }

  lemma {:induction false} NextBlock(fed: seq<byte>, data: seq<byte>, pos: nat, before: seq<byte>)
    requires pos + 64 <= |data| && fed + data[..pos] == before + []
    ensures fed + data[..pos + 64] == before + data[pos..pos + 64] + []
  {
    assert data[..pos + 64] == data[..pos] + data[pos..pos + 64];
    Assoc(fed, data[..pos], data[pos..pos + 64]);
    assert before + [] == before;
  }

  lemma {:induction false} RestOfData(fed: seq<byte>, data: seq<byte>, pos: nat, before: seq<byte>)
    requires pos <= |data| && fed + data[..pos] == before + []
    ensures fed + data == before + data[pos..]
  {
    assert data == data[..pos] + data[pos..];
    Assoc(fed, data[..pos], data[pos..]);
  }

  lemma {:induction false} DivTwice(n: nat, p: nat)
    requires p > 0
    ensures n / 256 / p == n / (256 * p)
  {
    var q := n / 256 / p;
    var r := n - 256 * p * q;
    assert n / 256 == p * q + n / 256 % p;
    assert 256 * (n / 256) == 256 * p * q + 256 * (n / 256 % p);
    assert 0 <= r < 256 * p;
    assert n == q * (256 * p) + r;
    Divided(q, r, 256 * p);
  }

  lemma {:induction false} BigEndianAt(n: nat, k: nat, i: nat)
    requires i < k
    ensures BigEndian(n, k)[i] == n / Pow256(k - 1 - i) % 256
  {
    if i < k - 1 {
      BigEndianAt(n / 256, k - 1, i);
      DivTwice(n, Pow256(k - 2 - i));
    }
  }

  lemma {:induction false} PaddedText(jb: seq<byte>, t: seq<byte>, j: seq<byte>, front: seq<byte>, len: seq<byte>)
    requires |t| < 64 && |len| == 8
    requires if |t| < 56 then j == jb && front == t + [0x80] + Zs(55 - |t|)
             else j == jb + (t + [0x80] + Zs(63 - |t|)) && front == Zs(56)
    ensures j + (front + len) == jb + t + PadFrom(|t|, len)
  {
    if |t| >= 56 {
      assert Zs(63 - |t|) + Zs(56) == Zs(119 - |t|);
    }
  }

  lemma {:induction false} IntoBlock(k: nat, t: nat)
    requires t < 64
    ensures (64 * k + t) % 64 == t
  {
  }

  // The padded text is the blocks hashed before and the one or two that sha1Final makes.
  lemma {:induction false} PaddedBlocks(fed: seq<byte>, bs: seq<chunk>, t: seq<byte>, all: seq<chunk>, j: seq<byte>,
                                        front: seq<byte>)
    requires fed == Joined(bs) + t && |t| < 64
    requires if |t| < 56 then j == Joined(bs) && front == t + [0x80] + Zs(55 - |t|)
             else j == Joined(bs) + (t + [0x80] + Zs(63 - |t|)) && front == Zs(56)
    requires Joined(all) == j + (front + BigEndian(8 * |fed|, 8))
    ensures Blocks(fed + Padding(|fed|)) == all
  {
    IntoBlock(|bs|, |t|);
    PaddedText(Joined(bs), t, j, front, BigEndian(8 * |fed|, 8));
    BlocksOfJoined(all);
  }
}
