// WebSocket frame headers and masking: src/ws.c, sections 5.2 and 5.3 of RFC 6455.
module Frames {
  import opened Bytes

  const CONT := 0
  const TEXT := 1
  const BIN := 2
  const CLOSE := 8
  const PING := 9
  const PONG := 10

  const TWO63 := 0x8000_0000_0000_0000

  datatype Header = Header(fin: bool, opcode: nat, masked: bool, payloadLen: nat,
                           maskKey: seq<byte>, headerLen: nat)

  // NeedMore: not even the header is complete. Malformed: a violation that closes the connection.
  datatype Verdict = NeedMore | Parsed(header: Header) | Malformed

  predicate LegalOpcode(op: nat) {
    op <= 2 || 8 <= op <= 10
  }

  predicate IsControl(op: nat) {
    8 <= op
  }

  // ---------------------------------------------------------------- parsing

  // The extended length, once the seven-bit length asks for one: how many bytes it takes.
  function ExtBytes(len7: nat): nat {
    if len7 == 126 then 2 else if len7 == 127 then 8 else 0
  }

  // Is this length written in its shortest form and below 2^63?
  predicate MinimalLen(len7: nat, len: nat) {
    && (len7 == 126 ==> 126 <= len)
    && (len7 == 127 ==> 0xFFFF < len < TWO63)
  }

  function Parse(b: seq<byte>): Verdict {
    if |b| < 2 then NeedMore
    else if (b[0] / 16) % 8 != 0 then Malformed
    else if !LegalOpcode(b[0] % 16) then Malformed
    else
      var fin, opcode, masked, len7 := b[0] >= 128, b[0] % 16, b[1] >= 128, b[1] % 128;
      var ext := ExtBytes(len7);
      if |b| < 2 + ext then NeedMore
      else
        var len := if ext == 0 then len7 else FromBigEndian(b[2..2 + ext]);
        var need := 2 + ext + (if masked then 4 else 0);
        if !MinimalLen(len7, len) then Malformed
        else if |b| < need then NeedMore
        else if IsControl(opcode) && (!fin || len > 125) then Malformed
        else Parsed(Header(fin, opcode, masked, len, if masked then b[need - 4..need] else [], need))
  }

  lemma {:induction false} TwoBytes(b: seq<byte>)
    requires |b| >= 4
    ensures FromBigEndian(b[2..4]) == (b[2] as int) * 256 + b[3]
  {
    assert b[2..4][..1] == [b[2]] && [b[2]][..0] == [];
    assert FromBigEndian([b[2]]) == b[2];
  }

  // The longest length form, accumulated byte by byte.
  method ReadEightBytes(b: seq<byte>) returns (len: nat)
    requires |b| >= 10
    ensures len == FromBigEndian(b[2..10])
  {
    len := 0;
    for i := 0 to 8
      invariant len == FromBigEndian(b[2..2 + i])
    {
      assert b[2..2 + (i + 1)][..i] == b[2..2 + i];
      len := len * 256 + b[2 + i];
    }
  }

  // The parser as the server runs it.
  method ParseHeader(b: seq<byte>) returns (v: Verdict)
    ensures v == Parse(b)
  {
    if |b| < 2 {
      return NeedMore;
    }
    var b0, b1 := b[0], b[1];
    if (b0 / 16) % 8 != 0 {
      return Malformed;
    }
    var fin, opcode, masked := b0 / 128 == 1, b0 % 16, b1 / 128 == 1;
    if 3 <= opcode <= 7 || 11 <= opcode {
      return Malformed;
    }
    var len: nat, need: nat := b1 % 128, 2;
    if len == 126 {
      need := need + 2;
      if |b| < need {
        return NeedMore;
      }
      len := (b[2] as int) * 256 + b[3];
      TwoBytes(b);
      if len < 126 {
        return Malformed;
      }
    } else if len == 127 {
      need := need + 8;
      if |b| < need {
        return NeedMore;
      }
      len := ReadEightBytes(b);
      if len >= TWO63 {
        return Malformed;
      }
      if len <= 0xFFFF {
        return Malformed;
      }
    }
    var maskKey: seq<byte> := [];
    if masked {
      need := need + 4;
      if |b| < need {
        return NeedMore;
      }
      maskKey := b[need - 4..need];
    }
    if opcode >= 8 && (!fin || len > 125) {
      return Malformed;
    }
    return Parsed(Header(fin, opcode, masked, len, maskKey, need));
  }

  // A verdict once given never changes when more bytes arrive.
  lemma VerdictIsStable(a: seq<byte>, b: seq<byte>)
    requires Parse(a) != NeedMore
    ensures Parse(a + b) == Parse(a)
  {
    if (a[0] / 16) % 8 == 0 && LegalOpcode(a[0] % 16) {
      var ext := ExtBytes(a[1] % 128);
      if 2 + ext <= |a| {
        SliceOfConcat(a, b, 2, 2 + ext);
      }
      var need := 2 + ext + (if a[1] >= 128 then 4 else 0);
      if a[1] >= 128 && need <= |a| {
        SliceOfConcat(a, b, need - 4, need);
      }
    }
  }

  // ---------------------------------------------------------------- encoding

  predicate LegalKey(key: seq<byte>) {
    |key| == 0 || |key| == 4
  }

  // What a header must satisfy to be sent at all.
  predicate Sendable(fin: bool, opcode: nat, len: nat) {
    && LegalOpcode(opcode)
    && len < TWO63
    && (IsControl(opcode) ==> fin && len <= 125)
  }

  function LenBytes(len: nat, maskBit: nat): seq<byte>
    requires len < TWO63 && (maskBit == 0 || maskBit == 128)
  {
    if len <= 125 then [maskBit + len]
    else if len <= 0xFFFF then [maskBit + 126] + BigEndian(len, 2)
    else [maskBit + 127] + BigEndian(len, 8)
  }

  // The header of a frame; an empty key is the unmasked form.
  function EncodeHeader(fin: bool, opcode: nat, key: seq<byte>, len: nat): seq<byte>
    requires opcode < 16 && LegalKey(key) && len < TWO63
  {
    [(if fin then 128 else 0) + opcode] + LenBytes(len, if key == [] then 0 else 128) + key
  }

  // wsEncodeHeader: a final, unmasked header into a ten-byte buffer.
  method WriteHeader(out: array<byte>, opcode: nat, payloadLen: nat) returns (o: nat)
    requires out.Length >= 10 && opcode < 16 && payloadLen < TWO63
    modifies out
    ensures 2 <= o <= 10
    ensures out[..o] == EncodeHeader(true, opcode, [], payloadLen)
    ensures out[o..] == old(out[o..])
  {
    out[0] := 128 + opcode;
    if payloadLen <= 125 {
      out[1] := payloadLen;
      o := 2;
    } else if payloadLen <= 0xFFFF {
      out[1], out[2], out[3] := 126, payloadLen / 256, payloadLen % 256;
      o := 4;
      assert BigEndian(payloadLen, 2) == [payloadLen / 256, payloadLen % 256] by {
        assert BigEndian(payloadLen / 256, 1) == BigEndian(payloadLen / 65536, 0) + [payloadLen / 256];
      }
    } else {
      out[1] := 127;
      ghost var tail := out[10..];
      var rest := payloadLen;
      for i := 8 downto 0
        invariant out[0] == 128 + opcode && out[1] == 127 && out[10..] == tail
        invariant BigEndian(rest, i) + out[2 + i..10] == BigEndian(payloadLen, 8)
      {
        out[2 + i] := rest % 256;
        assert BigEndian(rest, i + 1) == BigEndian(rest / 256, i) + [rest % 256];
        assert out[2 + i..10] == [rest % 256] + out[3 + i..10];
        rest := rest / 256;
      }
      assert BigEndian(rest, 0) == [];
      o := 10;
    }
  }

  // What the parser reads as the payload length, once the header's length bytes are there.
  function ReadLen(b: seq<byte>): nat
    requires |b| >= 2 && |b| >= 2 + ExtBytes(b[1] % 128)
  {
    var ext := ExtBytes(b[1] % 128);
    if ext == 0 then b[1] % 128 else FromBigEndian(b[2..2 + ext])
  }

  lemma {:induction false} PowersOf256()
    ensures Pow256(2) == 65536 && TWO63 < Pow256(8)
  {
    assert Pow256(3) == 0x100_0000 && Pow256(5) == 0x100_0000_0000 && Pow256(7) == 0x100_0000_0000_0000;
  }

  lemma {:induction false} LongLenRoundTrip(len: nat, ext: nat, b: seq<byte>)
    requires 125 < len < TWO63 && ext == (if len <= 0xFFFF then 2 else 8) && |b| >= 2 + ext
    requires b[1] % 128 == (if ext == 2 then 126 else 127) && b[2..2 + ext] == BigEndian(len, ext)
    ensures ext == ExtBytes(b[1] % 128) && ReadLen(b) == len && MinimalLen(b[1] % 128, len)
  {
    PowersOf256();
    BigEndianRoundTrip(len, ext);
  }

  lemma {:induction false} LenRoundTrip(len: nat, maskBit: nat, b: seq<byte>)
    requires len < TWO63 && (maskBit == 0 || maskBit == 128)
    requires var l := LenBytes(len, maskBit); 1 + |l| <= |b| && b[1..1 + |l|] == l
    ensures var l := LenBytes(len, maskBit);
            && (b[1] >= 128 <==> maskBit == 128)
            && |l| == 1 + ExtBytes(b[1] % 128)
            && ReadLen(b) == len && MinimalLen(b[1] % 128, len)
  {
    var l := LenBytes(len, maskBit);
    assert b[1] == b[1..1 + |l|][0] == l[0];
    if 125 < len {
      var ext := if len <= 0xFFFF then 2 else 8;
      assert b[2..2 + ext] == b[1..1 + |l|][1..] == BigEndian(len, ext);
      LongLenRoundTrip(len, ext, b);
    }
  }

  lemma {:induction false} LenCanonical(b: seq<byte>)
    requires |b| >= 2 && |b| >= 2 + ExtBytes(b[1] % 128) && MinimalLen(b[1] % 128, ReadLen(b))
    ensures ReadLen(b) < TWO63
    ensures b[1..2 + ExtBytes(b[1] % 128)] == LenBytes(ReadLen(b), if b[1] >= 128 then 128 else 0)
  {
    var ext := ExtBytes(b[1] % 128);
    assert b[1..2 + ext] == [b[1]] + b[2..2 + ext];
    if ext > 0 {
      FromBigEndianRoundTrip(b[2..2 + ext]);
      PowersOf256();
    }
  }

  // Parse after encode is the identity, whatever follows the header.
  lemma {:induction false} ParseEncoded(fin: bool, opcode: nat, key: seq<byte>, len: nat, rest: seq<byte>)
    requires LegalKey(key) && Sendable(fin, opcode, len)
    ensures var h := EncodeHeader(fin, opcode, key, len);
            Parse(h + rest) == Parsed(Header(fin, opcode, key != [], len, key, |h|))
  {
    var h := EncodeHeader(fin, opcode, key, len);
    var l := LenBytes(len, if key == [] then 0 else 128);
    var b := h + rest;
    assert b[0] == (if fin then 128 else 0) + opcode;
    assert b[1..1 + |l|] == l;
    LenRoundTrip(len, if key == [] then 0 else 128, b);
    assert key != [] ==> b[1 + |l|..1 + |l| + 4] == key;
  }

  // Every accepted header is exactly what the encoder emits for its fields: headers are canonical.
  lemma {:induction false} AcceptedIsCanonical(b: seq<byte>)
    requires Parse(b).Parsed?
    ensures var h := Parse(b).header;
            && LegalKey(h.maskKey) && (h.masked <==> h.maskKey != []) && Sendable(h.fin, h.opcode, h.payloadLen)
            && h.headerLen <= |b|
            && b[..h.headerLen] == EncodeHeader(h.fin, h.opcode, h.maskKey, h.payloadLen)
  {
    var h := Parse(b).header;
    var ext := ExtBytes(b[1] % 128);
    LenCanonical(b);
    assert b[..h.headerLen] == [b[0]] + b[1..2 + ext] + h.maskKey;
  }

  ghost predicate StartsWithHeader(b: seq<byte>) {
    exists fin, opcode, key, len ::
      LegalKey(key) && Sendable(fin, opcode, len) && EncodeHeader(fin, opcode, key, len) <= b
  }

  // So a header is accepted exactly when the bytes begin with one that may be sent.
  lemma {:induction false} AcceptedExactly(b: seq<byte>)
    ensures Parse(b).Parsed? <==> StartsWithHeader(b)
  {
    if StartsWithHeader(b) {
      var fin, opcode, key, len :|
        LegalKey(key) && Sendable(fin, opcode, len) && EncodeHeader(fin, opcode, key, len) <= b;
      var h := EncodeHeader(fin, opcode, key, len);
      ParseEncoded(fin, opcode, key, len, b[|h|..]);
      assert b == h + b[|h|..];
    }
    if Parse(b).Parsed? {
      AcceptedIsCanonical(b);
      var h := Parse(b).header;
      assert EncodeHeader(h.fin, h.opcode, h.maskKey, h.payloadLen) <= b;
    }
  }

  // And what is not accepted is refused, and not waited for, once all the bytes of a header are there; a
  // reserved bit or an opcode that does not exist is refused with the second byte.
  lemma {:induction false} DecidedWhenComplete(b: seq<byte>)
    ensures Parse(b) == NeedMore ==>
              |b| < 2 || |b| < 2 + ExtBytes(b[1] % 128) + (if b[1] >= 128 then 4 else 0)
    ensures Parse(b) == Malformed ==> !StartsWithHeader(b)
    ensures |b| >= 2 && (b[0] / 16 % 8 != 0 || b[0] % 16 in {3, 4, 5, 6, 7, 11, 12, 13, 14, 15}) ==>
              Parse(b) == Malformed
  {
    AcceptedExactly(b);
  }

  lemma {:induction false} EightBytes(s: seq<byte>)
    requires |s| == 8
    ensures s[0] >= 128 ==> FromBigEndian(s) >= TWO63
    ensures s[..6] == [0, 0, 0, 0, 0, 0] ==> FromBigEndian(s) <= 0xFFFF
  {
    assert s[..7][..6] == s[..6] && s[..6][..5] == s[..5] && s[..5][..4] == s[..4] && s[..4][..3] == s[..3];
    assert s[..3][..2] == s[..2] && s[..2][..1] == s[..1] && s[..1] == [s[0]] && [s[0]][..0] == [];
    assert FromBigEndian(s[..1]) == s[0];
    assert FromBigEndian(s[..2]) == FromBigEndian(s[..1]) * 256 + s[1];
    assert FromBigEndian(s[..3]) == FromBigEndian(s[..2]) * 256 + s[2];
    assert FromBigEndian(s[..4]) == FromBigEndian(s[..3]) * 256 + s[3];
    assert FromBigEndian(s[..5]) == FromBigEndian(s[..4]) * 256 + s[4];
    assert FromBigEndian(s[..6]) == FromBigEndian(s[..5]) * 256 + s[5];
    assert FromBigEndian(s[..7]) == FromBigEndian(s[..6]) * 256 + s[6];
    assert forall i :: 0 <= i < 6 ==> s[i] == s[..6][i];
  }

  // A length that is not in its shortest form, or takes a 64th bit, is refused with its last byte.
  lemma {:induction false} LengthsAreMinimal(b: seq<byte>)
    ensures |b| >= 4 && b[1] % 128 == 126 && b[2] == 0 && b[3] < 126 ==> Parse(b) == Malformed
    ensures |b| >= 10 && b[1] % 128 == 127 && (b[2] >= 128 || b[2..8] == [0, 0, 0, 0, 0, 0]) ==> Parse(b) == Malformed
  {
    if |b| >= 4 {
      TwoBytes(b);
    }
    if |b| >= 10 {
      EightBytes(b[2..10]);
      assert b[2..10][..6] == b[2..8];
    }
  }

  // ---------------------------------------------------------------- masking

  function Mask(p: seq<byte>, key: seq<byte>): (r: seq<byte>)
    requires LegalKey(key)
    ensures |r| == |p|
  {
    if key == [] then p else seq(|p|, i requires 0 <= i < |p| => XorByte(p[i], key[i % 4]))
  }

  lemma MaskTwice(p: seq<byte>, key: seq<byte>)
    requires LegalKey(key)
    ensures Mask(Mask(p, key), key) == p
  {
    if key != [] {
      forall i | 0 <= i < |p| ensures Mask(Mask(p, key), key)[i] == p[i] {
        XorByteTwice(p[i], key[i % 4]);
      }
    }
  }

  // Section 5.3 of RFC 6455, bit by bit: bit j of byte i is turned over where it is set in key byte i mod 4.
  lemma {:induction false} MaskBits(p: seq<byte>, key: seq<byte>, i: nat, j: nat)
    requires |key| == 4 && i < |p| && j < 8
    ensures Bit(Mask(p, key)[i], j) == 1 <==> Bit(p[i], j) != Bit(key[i % 4], j)
  {
    XorBits(p[i], key[i % 4], 8, j);
  }

  // wsUnmask: exclusive or with the repeated key, in place, on bytes off .. off+n.
  method Unmask(p: array<byte>, off: nat, n: nat, key: seq<byte>)
    requires |key| == 4 && off + n <= p.Length
    modifies p
    ensures p[off..off + n] == Mask(old(p[off..off + n]), key)
    ensures p[..off] == old(p[..off]) && p[off + n..] == old(p[off + n..])
  {
    ghost var was := p[..];
    for i := 0 to n
      invariant forall k :: 0 <= k < i ==> p[off + k] == XorByte(was[off + k], key[k % 4])
      invariant forall k :: 0 <= k < p.Length && !(off <= k < off + i) ==> p[k] == was[k]
    {
      p[off + i] := XorByte(p[off + i], key[i % 4]);
    }
    assert p[..off] == was[..off] && p[off + n..] == was[off + n..];
    assert p[off..off + n] == Mask(was[off..off + n], key);
  }

  // The masked copy that queueMaskedFrame makes of a payload.
  method MaskedCopy(src: seq<byte>, key: seq<byte>) returns (masked: seq<byte>)
    requires |key| == 4
    ensures masked == Mask(src, key)
  {
    var a := new byte[|src|];
    for i := 0 to |src|
      invariant forall k :: 0 <= k < i ==> a[k] == XorByte(src[k], key[k % 4])
    {
      a[i] := XorByte(src[i], key[i % 4]);
    }
    masked := a[..];
  }

  // ---------------------------------------------------------------- whole frames

  datatype Frame = Frame(fin: bool, opcode: nat, payload: seq<byte>)
  {
    predicate Legal() {
      Sendable(fin, opcode, |payload|)
    }
  }

  function Wire(f: Frame, key: seq<byte>): seq<byte>
    requires f.Legal() && LegalKey(key)
  {
    EncodeHeader(f.fin, f.opcode, key, |f.payload|) + Mask(f.payload, key)
  }

  // A receiver that parses a frame off the front of its buffer gets back what was sent.
  lemma {:induction false} FrameRoundTrip(f: Frame, key: seq<byte>, rest: seq<byte>)
    requires f.Legal() && LegalKey(key)
    ensures var b := Wire(f, key) + rest;
            && Parse(b) == Parsed(Header(f.fin, f.opcode, key != [], |f.payload|, key,
                                         |Wire(f, key)| - |f.payload|))
            && var hl := Parse(b).header.headerLen;
               && hl + |f.payload| == |Wire(f, key)|
               && Mask(b[hl..hl + |f.payload|], key) == f.payload
               && b[hl + |f.payload|..] == rest
  {
    var h := EncodeHeader(f.fin, f.opcode, key, |f.payload|);
    var b := Wire(f, key) + rest;
    assert b == h + (Mask(f.payload, key) + rest);
    ParseEncoded(f.fin, f.opcode, key, |f.payload|, Mask(f.payload, key) + rest);
    assert b[|h|..|h| + |f.payload|] == Mask(f.payload, key);
    MaskTwice(f.payload, key);
  }

  lemma ShortHeader(opcode: nat, key: seq<byte>, len: nat)
    requires opcode < 16 && LegalKey(key) && len <= 125
    ensures EncodeHeader(true, opcode, key, len) == [128 + opcode, (if key == [] then 0 else 128) + len] + key
  {
    var m := if key == [] then 0 else 128;
    assert [128 + opcode] + [m + len] == [128 + opcode, m + len];
  }

  // frameNew: the frame the server sends, built in one fresh block.
  method NewFrame(opcode: nat, payload: seq<byte>) returns (bytes: seq<byte>)
    requires LegalOpcode(opcode) && Sendable(true, opcode, |payload|)
    ensures bytes == Wire(Frame(true, opcode, payload), [])
  {
    var hdr := new byte[10];
    var hdrLen := WriteHeader(hdr, opcode, |payload|);
    bytes := hdr[..hdrLen] + payload;
  }

  // ---------------------------------------------------------------- the examples of section 5.7 of RFC 6455

  const HELLO: seq<byte> := [0x48, 0x65, 0x6C, 0x6C, 0x6F]

  lemma {:induction false} ExampleFrames()
    ensures HELLO == Ascii("Hello")
    ensures Wire(Frame(true, TEXT, HELLO), []) == [0x81, 0x05, 0x48, 0x65, 0x6C, 0x6C, 0x6F]
    ensures Wire(Frame(false, TEXT, HELLO[..3]), []) == [0x01, 0x03, 0x48, 0x65, 0x6C]
    ensures Wire(Frame(true, CONT, HELLO[3..]), []) == [0x80, 0x02, 0x6C, 0x6F]
    ensures Wire(Frame(true, PING, HELLO), []) == [0x89, 0x05, 0x48, 0x65, 0x6C, 0x6C, 0x6F]
    ensures Wire(Frame(true, PONG, HELLO), []) == [0x8A, 0x05, 0x48, 0x65, 0x6C, 0x6C, 0x6F]
    ensures EncodeHeader(true, CLOSE, [], 0) == [0x88, 0x00]
  {
  }

  lemma {:induction false} ExampleLengths()
    ensures EncodeHeader(true, BIN, [], 256) == [0x82, 0x7E, 0x01, 0x00]
    ensures EncodeHeader(true, BIN, [], 65536) == [0x82, 0x7F, 0x00, 0x00, 0x00, 0x00, 0x00, 0x01, 0x00, 0x00]
  {
    assert BigEndian(256, 2) == [1, 0];
    assert BigEndian(65536, 8) == [0, 0, 0, 0, 0, 1, 0, 0];
  }
}
