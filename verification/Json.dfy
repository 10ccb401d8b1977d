// The JSON text the aggregator wraps a text message in: src/agg.c, jsonEscapeInto and the printing
// in aggOnMessage, against a reader that follows section 7 of RFC 8259.
module Json {
  import opened Bytes
  import Utf8

  const QUOTE: byte := 34
  const BACKSLASH: byte := 92

  // ---------------------------------------------------------------- escaping

  function Hex(d: nat): byte
    requires d < 16
  {
    if d < 10 then 48 + d else 87 + d
  }

  function EscapeByte(c: byte): (e: seq<byte>)
    ensures 1 <= |e| <= 6
  {
    if c == QUOTE then [BACKSLASH, QUOTE]
    else if c == BACKSLASH then [BACKSLASH, BACKSLASH]
    else if c == 10 then [BACKSLASH, 110]
    else if c == 13 then [BACKSLASH, 114]
    else if c == 9 then [BACKSLASH, 116]
    else if c < 0x20 then [BACKSLASH, 117, 48, 48, Hex(c / 16), Hex(c % 16)]
    else [c]
  }

  // Section 7 of RFC 8259: quote and backslash, the short forms of three control bytes, and the long form,
  // in small letters, of the other control bytes. Nothing else is escaped.
  lemma {:induction false} EscapeTable(c: byte)
    ensures EscapeByte(34) == Ascii("\\\"") && EscapeByte(92) == Ascii("\\\\")
    ensures EscapeByte(10) == Ascii("\\n") && EscapeByte(13) == Ascii("\\r") && EscapeByte(9) == Ascii("\\t")
    ensures c < 32 && c !in {9, 10, 13} ==>
              EscapeByte(c)
              == Ascii("\\u00") + [('0' as int) + c / 16]
                 + [if c % 16 < 10 then ('0' as int) + c % 16 else ('a' as int) + c % 16 - 10]
    ensures c >= 32 && c !in {34, 92} ==> EscapeByte(c) == [c]
  {
  }

  function Escape(p: seq<byte>): seq<byte> {
    if p == [] then [] else EscapeByte(p[0]) + Escape(p[1..])
  }

  lemma {:induction false} EscapeAdd(p: seq<byte>, c: byte)
    ensures Escape(p + [c]) == Escape(p) + EscapeByte(c)
  {
    if p == [] {
      assert [c][1..] == [];
    } else {
      EscapeAdd(p[1..], c);
      assert (p + [c])[1..] == p[1..] + [c];
      Assoc(EscapeByte(p[0]), Escape(p[1..]), EscapeByte(c));
    }
  }

  // At most six bytes for one.
  lemma {:induction false} EscapeLength(p: seq<byte>)
    ensures |p| <= |Escape(p)| <= 6 * |p|
  {
    if p != [] {
      EscapeLength(p[1..]);
    }
  }

  lemma EscapeNext(was: seq<byte>, at: nat, p: seq<byte>, i: nat)
    requires i < |p| && at + |Escape(p[..i])| + |EscapeByte(p[i])| <= |was|
    ensures |Escape(p[..i + 1])| == |Escape(p[..i])| + |EscapeByte(p[i])|
    ensures Overwritten(Overwritten(was, at, Escape(p[..i])), at + |Escape(p[..i])|, EscapeByte(p[i]))
            == Overwritten(was, at, Escape(p[..i + 1]))
  {
    EscapeAdd(p[..i], p[i]);
    assert p[..i + 1] == p[..i] + [p[i]];
    OverwrittenTwice(was, at, Escape(p[..i]), EscapeByte(p[i]));
  }

  // The escape of the i-th byte goes behind those before it.
  method PutEscape(out: array<byte>, at: nat, o: nat, p: seq<byte>, i: nat, ghost was: seq<byte>)
    requires i < |p| && o == |Escape(p[..i])| && at + o + |EscapeByte(p[i])| <= out.Length == |was|
    requires out[..] == Overwritten(was, at, Escape(p[..i]))
    modifies out
    ensures o + |EscapeByte(p[i])| == |Escape(p[..i + 1])|
    ensures out[..] == Overwritten(was, at, Escape(p[..i + 1]))
  {
    EscapeNext(was, at, p, i);
    CopyInto(out, at + o, EscapeByte(p[i]));
  }

  // jsonEscapeInto: at offset `at` of the output, at most cap bytes. It stops before the first byte
  // whose escape no longer fits, so an escape is never cut; k bytes of p were escaped.
  method JsonEscapeInto(out: array<byte>, at: nat, cap: nat, p: seq<byte>) returns (o: nat, ghost k: nat)
    requires at + cap <= out.Length
    modifies out
    ensures k <= |p| && o == |Escape(p[..k])| <= cap
    ensures out[..] == Overwritten(old(out[..]), at, Escape(p[..k]))
    ensures k < |p| ==> o + |EscapeByte(p[k])| > cap
  {
    o, k := 0, 0;
    assert p[..0] == [];
    ghost var was := out[..];
    assert out[..] == Overwritten(was, at, []);
    for i := 0 to |p|
      invariant k == i && o == |Escape(p[..i])| <= cap
      invariant out[..] == Overwritten(was, at, Escape(p[..i]))
    {
      var n := |EscapeByte(p[i])|;
      if o + n > cap {
        return;
      }
      PutEscape(out, at, o, p, i, was);
      o, k := o + n, i + 1;
    }
    assert p[..|p|] == p;
  }

  // With six bytes of room for each byte of the payload nothing is lost.
  lemma RoomForAll(p: seq<byte>, k: nat, o: nat, cap: nat)
    requires k <= |p| && o == |Escape(p[..k])| && cap >= 6 * |p|
    requires k < |p| ==> o + |EscapeByte(p[k])| > cap
    ensures k == |p|
  {
    EscapeLength(p[..k]);
  }

  // ---------------------------------------------------------------- reading a string

  function HexValue(b: byte): Option<nat> {
    if 48 <= b <= 57 then Some(b - 48)
    else if 97 <= b <= 102 then Some(b - 87)
    else if 65 <= b <= 70 then Some(b - 55)
    else None
  }

  // The code unit that four hexadecimal digits stand for.
  function Hex4(s: seq<byte>): Option<nat> {
    if |s| < 4 then None
    else
      match (HexValue(s[0]), HexValue(s[1]), HexValue(s[2]), HexValue(s[3]))
      case (Some(a), Some(b), Some(c), Some(d)) => Some(((a * 16 + b) * 16 + c) * 16 + d)
      case _ => None
  }

  function Unescape2(b: byte): Option<byte> {
    if b == QUOTE || b == BACKSLASH || b == 47 then Some(b)
    else if b == 98 then Some(8)
    else if b == 102 then Some(12)
    else if b == 110 then Some(10)
    else if b == 114 then Some(13)
    else if b == 116 then Some(9)
    else None
  }

  // One character of a string body and how many bytes it took. A bare control byte or quote is no
  // character. (Halves of surrogate pairs are refused; the writer has no use for them.)
  function ReadChar(s: seq<byte>): Option<(seq<byte>, nat)> {
    if s == [] || s[0] < 0x20 || s[0] == QUOTE then None
    else if s[0] != BACKSLASH then Some(([s[0]], 1))
    else if |s| >= 2 && s[1] == 117 then
      match Hex4(s[2..])
      case Some(v) => if 0xD800 <= v <= 0xDFFF || v > 0xFFFF then None else Some((Utf8.EncodeScalar(v), 6))
      case None => None
    else if |s| >= 2 then
      match Unescape2(s[1])
      case Some(b) => Some(([b], 2))
      case None => None
    else None
  }

  // The text of a string body up to its closing quote, and what follows the quote.
  function ReadString(s: seq<byte>): Option<(seq<byte>, seq<byte>)>
    decreases |s|
  {
    if s != [] && s[0] == QUOTE then Some(([], s[1..]))
    else match ReadChar(s)
      case None => None
      case Some((text, n)) =>
        if n == 0 || n > |s| then None
        else match ReadString(s[n..])
          case None => None
          case Some((more, rest)) => Some((text + more, rest))
  }

  lemma HexRoundTrip(d: nat)
    requires d < 16
    ensures HexValue(Hex(d)) == Some(d)
  {
  }

  lemma ReadEscapedByte(c: byte, rest: seq<byte>)
    ensures ReadChar(EscapeByte(c) + rest) == Some(([c], |EscapeByte(c)|))
  {
    var s := EscapeByte(c) + rest;
    if c < 0x20 && c != 9 && c != 10 && c != 13 {
      HexRoundTrip(c / 16);
      HexRoundTrip(c % 16);
      HexRoundTrip(0);
      assert s[2..][0] == 48 && s[2..][1] == 48 && s[2..][2] == Hex(c / 16) && s[2..][3] == Hex(c % 16);
    }
  }

  lemma {:induction false} ReadOn(c: byte, tail: seq<byte>, text: seq<byte>, rest: seq<byte>)
    requires ReadString(tail) == Some((text, rest))
    ensures ReadString(EscapeByte(c) + tail) == Some(([c] + text, rest))
  {
    ReadEscapedByte(c, tail);
    assert (EscapeByte(c) + tail)[|EscapeByte(c)|..] == tail;
  }

  // Escaping is undone, and the closing quote is the first bare one: whatever follows, a reader gets
  // back the payload and stops exactly behind it.
  lemma {:induction false} ReadEscaped(p: seq<byte>, rest: seq<byte>)
    ensures ReadString(Escape(p) + [QUOTE] + rest) == Some((p, rest))
  {
    var s := Escape(p) + [QUOTE] + rest;
    if p == [] {
      assert s[1..] == rest;
    } else {
      var e, tail := EscapeByte(p[0]), Escape(p[1..]) + [QUOTE] + rest;
      assert s == e + tail;
      ReadEscaped(p[1..], rest);
      ReadOn(p[0], tail, p[1..], rest);
      assert p == [p[0]] + p[1..];
    }
  }

  // No byte of the escaped text is a control byte, and a quote comes only behind a backslash.
  lemma {:induction false} EscapedIsQuiet(p: seq<byte>)
    ensures forall i :: 0 <= i < |Escape(p)| ==> Escape(p)[i] >= 0x20
    ensures forall i :: 0 <= i < |Escape(p)| && Escape(p)[i] == QUOTE ==> i > 0 && Escape(p)[i - 1] == BACKSLASH
  {
    if p != [] {
      EscapedIsQuiet(p[1..]);
      var e, tail := EscapeByte(p[0]), Escape(p[1..]);
      forall i | 0 <= i < |e + tail|
        ensures (e + tail)[i] >= 0x20 && ((e + tail)[i] == QUOTE ==> i > 0 && (e + tail)[i - 1] == BACKSLASH)
      {
        if i >= |e| {
          assert (e + tail)[i] == tail[i - |e|];
        }
      }
    }
  }

  // Escaping keeps text valid UTF-8.
  lemma {:induction false} EscapeKeepsUtf8(st: Utf8.State, p: seq<byte>)
    requires Utf8.Feed(st, p).good
    ensures Utf8.Feed(st, Escape(p)) == Utf8.Feed(st, p)
    decreases |p|
  {
    if p != [] {
      var next := Utf8.Step(st, p[0]).value;
      EscapeKeepsUtf8(next, p[1..]);
      EscapeByteUtf8(st, p[0]);
      Utf8.FeedConcat(st, EscapeByte(p[0]), Escape(p[1..]));
    }
  }

  lemma EscapeByteUtf8(st: Utf8.State, c: byte)
    requires Utf8.Step(st, c).Some?
    ensures Utf8.Feed(st, EscapeByte(c)) == Utf8.Fed(true, Utf8.Step(st, c).value)
  {
    if |EscapeByte(c)| == 1 {
      Utf8.Feed1(st, [c]);
    } else {
      AsciiFeed(st, EscapeByte(c));
    }
  }

  predicate AllAscii(p: seq<byte>) {
    forall i :: 0 <= i < |p| ==> p[i] < 0x80
  }

  lemma {:induction false} AsciiFeed(st: Utf8.State, p: seq<byte>)
    requires AllAscii(p) && Utf8.Done(st)
    ensures Utf8.Feed(st, p) == Utf8.Fed(true, st)
    decreases |p|
  {
    if p != [] {
      AsciiFeed(st, p[1..]);
    }
  }

  // ---------------------------------------------------------------- numbers

  predicate IsDigit(b: byte) {
    48 <= b <= 57
  }

  function Digits(n: nat): seq<byte> {
    if n < 10 then [48 + n] else Digits(n / 10) + [48 + n % 10]
  }

  // At least six digits, zeros in front.
  function SixDigits(n: nat): seq<byte> {
    seq(if |Digits(n)| < 6 then 6 - |Digits(n)| else 0, _ => 48) + Digits(n)
  }

  function Value(ds: seq<byte>): nat
    requires forall i :: 0 <= i < |ds| ==> IsDigit(ds[i])
  {
    if ds == [] then 0
    else
      assert IsDigit(ds[|ds| - 1]);
      Value(ds[..|ds| - 1]) * 10 + (ds[|ds| - 1] as int - 48)
  }

  lemma {:induction false} DigitsValue(n: nat)
    ensures forall i :: 0 <= i < |Digits(n)| ==> IsDigit(Digits(n)[i])
    ensures Value(Digits(n)) == n
  {
    if n >= 10 {
      DigitsValue(n / 10);
      assert Digits(n)[..|Digits(n)| - 1] == Digits(n / 10);
    }
  }

  lemma {:induction false} ZerosValue(k: nat, ds: seq<byte>)
    requires forall i :: 0 <= i < |ds| ==> IsDigit(ds[i])
    ensures Value(seq(k, _ => 48) + ds) == Value(ds)
  {
    var z := seq(k, _ => 48);
    if ds == [] {
      assert z + ds == z;
      if k > 0 {
        ZerosValue(k - 1, ds);
        assert z[..k - 1] == seq(k - 1, _ => 48) + ds;
      }
    } else {
      ZerosValue(k, ds[..|ds| - 1]);
      assert (z + ds)[..|z + ds| - 1] == z + ds[..|ds| - 1];
    }
  }

  function Pow10(k: nat): nat {
    if k == 0 then 1 else 10 * Pow10(k - 1)
  }

  lemma {:induction false} DigitsLength(n: nat, k: nat)
    requires n < Pow10(k) && k > 0
    ensures 1 <= |Digits(n)| <= k
  {
    if n >= 10 {
      DigitsLength(n / 10, k - 1);
    }
  }

  // The digits at the front, and the rest.
  function Span(s: seq<byte>): (n: nat)
    ensures n <= |s| && forall i :: 0 <= i < n ==> IsDigit(s[i])
  {
    if s != [] && IsDigit(s[0]) then 1 + Span(s[1..]) else 0
  }

  lemma {:induction false} SpanDigits(ds: seq<byte>, rest: seq<byte>)
    requires forall i :: 0 <= i < |ds| ==> IsDigit(ds[i])
    requires rest == [] || !IsDigit(rest[0])
    ensures Span(ds + rest) == |ds|
  {
    if ds == [] {
      assert ds + rest == rest;
    } else {
      SpanDigits(ds[1..], rest);
      assert (ds + rest)[1..] == ds[1..] + rest;
    }
  }

  // A literal, then a number.
  function ReadField(lit: seq<byte>, s: seq<byte>): Option<(nat, seq<byte>)> {
    if !(lit <= s) then None
    else
      var t := s[|lit|..];
      if Span(t) == 0 then None else Some((Value(t[..Span(t)]), t[Span(t)..]))
  }

  lemma {:induction false} FieldRead(lit: seq<byte>, ds: seq<byte>, rest: seq<byte>)
    requires ds != [] && (forall i :: 0 <= i < |ds| ==> IsDigit(ds[i]))
    requires rest == [] || !IsDigit(rest[0])
    ensures ReadField(lit, lit + ds + rest) == Some((Value(ds), rest))
  {
    var s := lit + ds + rest;
    assert s[|lit|..] == ds + rest;
    SpanDigits(ds, rest);
    assert (ds + rest)[..|ds|] == ds && (ds + rest)[|ds|..] == rest;
  }

  // ---------------------------------------------------------------- the whole text

  datatype Text = Text(src: nat, seqNo: nat, sec: nat, usec: nat, data: seq<byte>)

  const SRC := Ascii("{\"src\":")
  const SEQ := Ascii(",\"seq\":")
  const TIME := Ascii(",\"t\":")
  const POINT := Ascii(".")
  const DATA := Ascii(",\"data\":\"")
  const END := Ascii("\"}")

  function Head(src: nat, seqNo: nat, sec: nat, usec: nat): seq<byte> {
    SRC + Digits(src) + (SEQ + Digits(seqNo) + (TIME + Digits(sec) + (POINT + SixDigits(usec) + DATA)))
  }

  function Print(x: Text): seq<byte> {
    Head(x.src, x.seqNo, x.sec, x.usec) + Escape(x.data) + END
  }

  // The object as it is printed: the members in this order, the microseconds in six digits.
  lemma {:induction false} PrintedForm(x: Text)
    requires x.usec < 1000000
    ensures Print(x)
            == Ascii("{\"src\":") + Digits(x.src) + Ascii(",\"seq\":") + Digits(x.seqNo)
               + Ascii(",\"t\":") + Digits(x.sec) + Ascii(".") + SixDigits(x.usec)
               + Ascii(",\"data\":\"") + Escape(x.data) + Ascii("\"}")
    ensures |SixDigits(x.usec)| == 6
  {
    assert Pow10(6) == 1000000;
    DigitsLength(x.usec, 6);
    FormAssoc(SRC + Digits(x.src), SEQ, Digits(x.seqNo), TIME, Digits(x.sec), POINT, SixDigits(x.usec), DATA);
  }

  lemma FormAssoc(a: seq<byte>, b: seq<byte>, c: seq<byte>, d: seq<byte>, e: seq<byte>, f: seq<byte>, g: seq<byte>,
                  h: seq<byte>)
    ensures a + (b + c + (d + e + (f + g + h))) == a + b + c + d + e + f + g + h
  {
  }

  // A reader of that object: four numbers and a string, nothing behind it.
  function ReadNumbers(s: seq<byte>): Option<(nat, nat, nat, nat, seq<byte>)> {
    match ReadField(SRC, s)
    case None => None
    case Some((src, s1)) =>
    match ReadField(SEQ, s1)
    case None => None
    case Some((seqNo, s2)) =>
    match ReadField(TIME, s2)
    case None => None
    case Some((sec, s3)) =>
    match ReadField(POINT, s3)
    case None => None
    case Some((usec, s4)) => Some((src, seqNo, sec, usec, s4))
  }

  function ReadData(s: seq<byte>): Option<seq<byte>> {
    if !(DATA <= s) then None
    else
      match ReadString(s[|DATA|..])
      case None => None
      case Some((data, rest)) => if rest == END[1..] then Some(data) else None
  }

  function Read(s: seq<byte>): Option<Text> {
    match ReadNumbers(s)
    case None => None
    case Some((src, seqNo, sec, usec, rest)) =>
      match ReadData(rest)
      case None => None
      case Some(data) => Some(Text(src, seqNo, sec, usec, data))
  }

  lemma SixDigitsValue(n: nat)
    ensures SixDigits(n) != [] && forall i :: 0 <= i < |SixDigits(n)| ==> IsDigit(SixDigits(n)[i])
    ensures Value(SixDigits(n)) == n
  {
    DigitsValue(n);
    ZerosValue(|SixDigits(n)| - |Digits(n)|, Digits(n));
    assert SixDigits(n) == seq(|SixDigits(n)| - |Digits(n)|, _ => 48) + Digits(n);
  }

  lemma ReadToQuote(data: seq<byte>, end: seq<byte>)
    requires end != [] && end[0] == QUOTE
    ensures ReadString(Escape(data) + end) == Some((data, end[1..]))
  {
    ReadEscaped(data, end[1..]);
    assert end == [QUOTE] + end[1..];
    Assoc(Escape(data), [QUOTE], end[1..]);
  }

  lemma DataRead(data: seq<byte>)
    ensures ReadData(DATA + (Escape(data) + END)) == Some(data)
  {
    ReadToQuote(data, END);
    assert (DATA + (Escape(data) + END))[|DATA|..] == Escape(data) + END;
  }

  lemma NumbersRead(x: Text, s4: seq<byte>)
    requires s4 != [] && !IsDigit(s4[0])
    ensures ReadNumbers(SRC + Digits(x.src)
                        + (SEQ + Digits(x.seqNo) + (TIME + Digits(x.sec) + (POINT + SixDigits(x.usec) + s4))))
            == Some((x.src, x.seqNo, x.sec, x.usec, s4))
  {
    var s3 := POINT + SixDigits(x.usec) + s4;
    var s2 := TIME + Digits(x.sec) + s3;
    var s1 := SEQ + Digits(x.seqNo) + s2;
    DigitsValue(x.src);
    DigitsValue(x.seqNo);
    DigitsValue(x.sec);
    SixDigitsValue(x.usec);
    FieldRead(SRC, Digits(x.src), s1);
    FieldRead(SEQ, Digits(x.seqNo), s2);
    FieldRead(TIME, Digits(x.sec), s3);
    FieldRead(POINT, SixDigits(x.usec), s4);
  }

  // What the sink's reader makes of a printed text is the source, its number, the time and exactly
  // the payload.
  lemma ReadPrinted(x: Text)
    ensures Read(Print(x)) == Some(x)
  {
    var s4 := DATA + (Escape(x.data) + END);
    NumbersRead(x, s4);
    DataRead(x.data);
    PrintAssoc(SRC + Digits(x.src), SEQ + Digits(x.seqNo), TIME + Digits(x.sec), POINT + SixDigits(x.usec),
               DATA, Escape(x.data), END);
  }

  lemma PrintAssoc(a: seq<byte>, b: seq<byte>, c: seq<byte>, d: seq<byte>, e: seq<byte>, f: seq<byte>, g: seq<byte>)
    ensures a + (b + (c + (d + e))) + f + g == a + (b + (c + (d + (e + (f + g)))))
  {
  }

  // The printed text is UTF-8 whenever the payload is.
  lemma PrintedIsUtf8(x: Text)
    requires Utf8.Accepts(x.data)
    ensures Utf8.Accepts(Print(x))
  {
    var h := Head(x.src, x.seqNo, x.sec, x.usec);
    HeadIsAscii(x);
    AsciiFeed(Utf8.START, h);
    EscapeKeepsUtf8(Utf8.START, x.data);
    Utf8.FeedConcat(Utf8.START, h, Escape(x.data));
    AsciiFeed(Utf8.START, END);
    var st := Utf8.Feed(Utf8.START, x.data).st;
    Utf8.FeedConcat(Utf8.START, h + Escape(x.data), END);
    AsciiFeed(st, END);
  }

  lemma HeadIsAscii(x: Text)
    ensures AllAscii(Head(x.src, x.seqNo, x.sec, x.usec)) && AllAscii(END)
  {
    DigitsValue(x.src);
    DigitsValue(x.seqNo);
    DigitsValue(x.sec);
    SixDigitsValue(x.usec);
    assert AllAscii(SRC) && AllAscii(SEQ) && AllAscii(TIME) && AllAscii(POINT) && AllAscii(DATA);
  }

  // ---------------------------------------------------------------- the buffer

  lemma HeadFits(src: nat, seqNo: nat, sec: nat, usec: nat)
    requires src < TWO64 && seqNo < TWO64 && sec < TWO64 && usec < 1000000
    ensures |Head(src, seqNo, sec, usec)| <= 95
  {
    assert Pow10(20) >= TWO64 && Pow10(6) == 1000000;
    DigitsLength(src, 20);
    DigitsLength(seqNo, 20);
    DigitsLength(sec, 20);
    DigitsLength(usec, 6);
  }

  // The text part of aggOnMessage: print the head, escape the payload behind it with three bytes to
  // spare, close the object. The buffer it picks is always large enough.
  method PrintInto(x: Text) returns (text: seq<byte>)
    requires x.src < TWO64 && x.seqNo < TWO64 && x.sec < TWO64 && x.usec < 1000000
    ensures text == Print(x)
  {
    var cap := |x.data| * 6 + 128;
    var out := new byte[cap];
    var head := Head(x.src, x.seqNo, x.sec, x.usec);
    HeadFits(x.src, x.seqNo, x.sec, x.usec);
    ghost var was := out[..];
    CopyInto(out, 0, head);
    var n := |head|;
    var o;
    ghost var k;
    o, k := JsonEscapeInto(out, n, cap - n - 3, x.data);
    RoomForAll(x.data, k, o, cap - n - 3);
    assert x.data[..k] == x.data;
    OverwrittenTwice(was, 0, head, Escape(x.data));
    CopyInto(out, n + o, END);
    OverwrittenTwice(was, 0, head + Escape(x.data), END);
    text := out[..n + o + |END|];
    assert text == Overwritten(was, 0, Print(x))[..|Print(x)|];
  }
}
