// The HTTP/1.1 upgrade: the parser of src/http.c, the server's answer, the client's request and its
// check of the answer. Text is bytes.
module Http {
  import opened Bytes
  import Base64
  import Json
  import Sha1

  const CR: byte := 13
  const LF: byte := 10
  const SPACE: byte := 32
  const COMMA: byte := 44
  const COLON: byte := 58

  const CRLF: seq<byte> := [13, 10]

  // ---------------------------------------------------------------- scanning

  // findCRLF: where the first line ends, or the length of the text.
  function LineEnd(p: seq<byte>): (i: nat)
    ensures i <= |p| && (i < |p| ==> i + 2 <= |p| && p[i] == CR && p[i + 1] == LF)
  {
    if |p| < 2 then |p| else if p[0] == CR && p[1] == LF then 0 else 1 + LineEnd(p[1..])
  }

  predicate EmptyLineAt(p: seq<byte>, i: nat) {
    i + 4 <= |p| && p[i] == CR && p[i + 1] == LF && p[i + 2] == CR && p[i + 3] == LF
  }

  // httpFindHeaderEnd
  function HeaderEnd(p: seq<byte>): (r: Option<nat>)
    ensures r.Some? ==> EmptyLineAt(p, r.value)
  {
    if |p| < 4 then None
    else if EmptyLineAt(p, 0) then Some(0)
    else match HeaderEnd(p[1..]) case None => None case Some(i) => Some(i + 1)
  }

  // That is the first empty line.
  lemma {:induction false} FirstEmptyLine(p: seq<byte>)
    ensures forall j: nat :: EmptyLineAt(p, j) ==> HeaderEnd(p).Some? && HeaderEnd(p).value <= j
  {
    forall j: nat | EmptyLineAt(p, j) ensures HeaderEnd(p).Some? && HeaderEnd(p).value <= j {
      if j > 0 {
        FirstEmptyLine(p[1..]);
        assert EmptyLineAt(p[1..], j - 1);
      }
    }
  }

  // The index of a byte, or the length of the text.
  function IndexOf(p: seq<byte>, c: byte): (i: nat)
    ensures i <= |p| && (i < |p| ==> p[i] == c) && forall j :: 0 <= j < i ==> p[j] != c
  {
    if p == [] || p[0] == c then 0 else 1 + IndexOf(p[1..], c)
  }

  function Lower(c: byte): byte {
    if 65 <= c <= 90 then c + 32 else c
  }

  predicate SameNoCase(a: seq<byte>, b: seq<byte>) {
    |a| == |b| && forall i :: 0 <= i < |a| ==> Lower(a[i]) == Lower(b[i])
  }

  // Capitals and small letters alike, and nothing else.
  lemma {:induction false} CaseOnly(a: seq<byte>, b: seq<byte>)
    ensures SameNoCase(a, b) <==>
              |a| == |b|
              && forall i :: 0 <= i < |a| ==>
                   a[i] == b[i] || (65 <= a[i] <= 90 && b[i] == a[i] + 32) || (65 <= b[i] <= 90 && a[i] == b[i] + 32)
  {
  }

  function TrimLeft(v: seq<byte>): (r: seq<byte>)
    ensures |r| <= |v|
  {
    if v != [] && v[0] == SPACE then TrimLeft(v[1..]) else v
  }

  function TrimRight(v: seq<byte>): (r: seq<byte>)
    ensures |r| <= |v| && r <= v
  {
    if v != [] && v[|v| - 1] == SPACE then TrimRight(v[..|v| - 1]) else v
  }

  // The value of a header line, if it has this name.
  function LineValue(line: seq<byte>, name: seq<byte>): Option<seq<byte>> {
    if |line| > |name| && line[|name|] == COLON && SameNoCase(line[..|name|], name)
    then Some(TrimRight(TrimLeft(line[|name| + 1..])))
    else None
  }

  // The first line with this name, up to an empty line or the end.
  function HeaderIn(lines: seq<byte>, name: seq<byte>): Option<seq<byte>>
    decreases |lines|
  {
    var i := LineEnd(lines);
    if i == 0 then None
    else
      match LineValue(lines[..i], name)
      case Some(v) => Some(v)
      case None => if i == |lines| then None else HeaderIn(lines[i + 2..], name)
  }

  // httpFindHeader: the request line is skipped.
  function FindHeader(p: seq<byte>, name: seq<byte>): Option<seq<byte>> {
    var i := LineEnd(p);
    if i == |p| then None else HeaderIn(p[i + 2..], name)
  }

  function SkipSeparators(v: seq<byte>): (r: seq<byte>)
    ensures |r| <= |v| && (r == [] || (r[0] != SPACE && r[0] != COMMA))
  {
    if v != [] && (v[0] == SPACE || v[0] == COMMA) then SkipSeparators(v[1..]) else v
  }

  // httpHeaderHasToken: a comma-separated list names the token.
  predicate HasToken(v: seq<byte>, token: seq<byte>)
    decreases |v|
  {
    var s := SkipSeparators(v);
    var i := IndexOf(s, COMMA);
    s != [] && (SameNoCase(TrimRight(s[..i]), token) || HasToken(s[i..], token))
  }

  // The items of a comma-separated list.
  function Items(v: seq<byte>): (items: seq<seq<byte>>)
    ensures items != []
    decreases |v|
  {
    var i := IndexOf(v, COMMA);
    if i == |v| then [v] else [v[..i]] + Items(v[i + 1..])
  }

  predicate IsItem(item: seq<byte>, token: seq<byte>) {
    SameNoCase(TrimRight(TrimLeft(item)), token)
  }

  ghost predicate Lists(v: seq<byte>, token: seq<byte>) {
    exists i :: 0 <= i < |Items(v)| && IsItem(Items(v)[i], token)
  }

  // How a list goes on, by its first byte.
  lemma {:induction false} ItemsBy(v: seq<byte>)
    requires v != []
    ensures v[0] == COMMA ==> Items(v) == [[]] + Items(v[1..])
    ensures v[0] != COMMA ==> Items(v) == [[v[0]] + Items(v[1..])[0]] + Items(v[1..])[1..]
  {
    var i, k := IndexOf(v, COMMA), IndexOf(v[1..], COMMA);
    if v[0] == COMMA {
      assert v[..0] == [];
    } else {
      assert i == k + 1 && v[..i] == [v[0]] + v[1..][..k] && v == [v[0]] + v[1..];
      assert v[..|v|] == v && v[1..][..|v| - 1] == v[1..];
      if i < |v| {
        assert v[i + 1..] == v[1..][k + 1..];
      }
    }
  }

  lemma {:induction false} FirstItem(v: seq<byte>, token: seq<byte>, head: seq<byte>, tail: seq<seq<byte>>)
    requires Items(v) == [head] + tail
    ensures Lists(v, token) <==> IsItem(head, token) || exists i :: 0 <= i < |tail| && IsItem(tail[i], token)
  {
    var items := Items(v);
    if Lists(v, token) {
      var i :| 0 <= i < |items| && IsItem(items[i], token);
      assert i > 0 ==> IsItem(tail[i - 1], token);
    }
    if IsItem(head, token) {
      assert IsItem(items[0], token);
    }
    forall i | 0 <= i < |tail| && IsItem(tail[i], token) ensures Lists(v, token) {
      assert IsItem(items[i + 1], token);
    }
  }

  // A comma or a space in front changes nothing.
  lemma {:induction false} SeparatorInFront(v: seq<byte>, token: seq<byte>)
    requires v != [] && (v[0] == COMMA || v[0] == SPACE) && token != []
    ensures Lists(v, token) <==> Lists(v[1..], token)
  {
    ItemsBy(v);
    var rest := Items(v[1..]);
    assert rest == [rest[0]] + rest[1..];
    FirstItem(v[1..], token, rest[0], rest[1..]);
    if v[0] == COMMA {
      FirstItem(v, token, [], rest);
    } else {
      FirstItem(v, token, [SPACE] + rest[0], rest[1..]);
      assert ([SPACE] + rest[0])[1..] == rest[0];
    }
  }

  // The first item, when the list begins with a byte of it.
  lemma {:induction false} ItemInFront(v: seq<byte>, token: seq<byte>)
    requires v != [] && v[0] != COMMA && v[0] != SPACE
    ensures var i := IndexOf(v, COMMA);
            Lists(v, token) <==> SameNoCase(TrimRight(v[..i]), token) || (i < |v| && Lists(v[i + 1..], token))
  {
    var i := IndexOf(v, COMMA);
    var tail := if i == |v| then [] else Items(v[i + 1..]);
    assert v[..|v|] == v && TrimLeft(v[..i]) == v[..i];
    assert Items(v) == [v[..i]] + tail;
    FirstItem(v, token, v[..i], tail);
  }

  // So the scan finds a token exactly when it is an item, but for case and surrounding spaces.
  lemma {:induction false} TokenIsItem(v: seq<byte>, token: seq<byte>)
    requires token != []
    ensures HasToken(v, token) <==> Lists(v, token)
    decreases |v|
  {
    if v == [] {
      assert Items(v) == [[]];
    } else if v[0] == COMMA || v[0] == SPACE {
      SeparatorInFront(v, token);
      TokenIsItem(v[1..], token);
    } else {
      var i := IndexOf(v, COMMA);
      ItemInFront(v, token);
      if i < |v| {
        TokenIsItem(v[i + 1..], token);
        assert v[i..][1..] == v[i + 1..];
      }
    }
  }

  // ---------------------------------------------------------------- the server's parser

  const MAGIC := Ascii("258EAFA5-E914-47DA-95CA-C5AB0DC85B11")

  // wsComputeAccept: section 4.2.2 of RFC 6455.
  predicate LegalKey(key: seq<byte>) {
    |key| == 24 && Base64.DecodedLen(key) == Some(16)
  }

  function Accept(key: seq<byte>): (a: seq<byte>)
    ensures |a| == 28
  {
    DigestLetters(Sha1.Digest(key + MAGIC));
    Base64.Encode(Sha1.Digest(key + MAGIC))
  }

  lemma {:induction false} DigestLetters(d: seq<byte>)
    requires |d| == 20
    ensures |Base64.Encode(d)| == 28
  {
  }

  datatype Handshake = Ok(path: seq<byte>, accept: seq<byte>) | NotUpgrade | BadVersion | BadRequest

  const GET := Ascii("GET ")
  const UPGRADE := Ascii("Upgrade")
  const CONNECTION := Ascii("Connection")
  const VERSION := Ascii("Sec-WebSocket-Version")
  const KEY := Ascii("Sec-WebSocket-Key")
  const ACCEPT := Ascii("Sec-WebSocket-Accept")
  const HOST := Ascii("Host")
  const WEBSOCKET := Ascii("websocket")
  const THIRTEEN := Ascii("13")

  const MAX_PATH := 256

  predicate AsksUpgrade(p: seq<byte>) {
    var upgrade, connection := FindHeader(p, UPGRADE), FindHeader(p, CONNECTION);
    && upgrade.Some? && HasToken(upgrade.value, WEBSOCKET)
    && connection.Some? && HasToken(connection.value, UPGRADE)
  }

  // httpParseHandshake
  function ParseHandshake(p: seq<byte>): Handshake {
    if |p| < 5 || p[..4] != GET then BadRequest
    else
      var n := IndexOf(p[4..], SPACE);
      if n == |p| - 4 || n == 0 || n >= MAX_PATH then BadRequest
      else if !AsksUpgrade(p) then NotUpgrade
      else if FindHeader(p, VERSION) != Some(THIRTEEN) then BadVersion
      else
        match FindHeader(p, KEY)
        case None => BadRequest
        case Some(key) => if LegalKey(key) then Ok(p[4..4 + n], Accept(key)) else BadRequest
  }

  // ---------------------------------------------------------------- printing

  // A header block: its lines, each ended by CRLF, and an empty line.
  function Head(lines: seq<seq<byte>>): seq<byte> {
    if lines == [] then CRLF else lines[0] + CRLF + Head(lines[1..])
  }

  datatype Named = Named(name: seq<byte>, value: seq<byte>)

  function Field(f: Named): seq<byte> {
    f.name + [COLON, SPACE] + f.value
  }

  function Fields(fs: seq<Named>): (lines: seq<seq<byte>>)
    ensures |lines| == |fs|
  {
    seq(|fs|, i requires 0 <= i < |fs| => Field(fs[i]))
  }

  function RequestFields(host: seq<byte>, port: nat, key: seq<byte>): seq<Named> {
    [Named(HOST, host + [COLON] + Json.Digits(port)), Named(UPGRADE, WEBSOCKET), Named(CONNECTION, UPGRADE),
     Named(KEY, key), Named(VERSION, THIRTEEN)]
  }

  // The text queueHandshake prints.
  function Request(path: seq<byte>, host: seq<byte>, port: nat, key: seq<byte>): seq<byte> {
    Head([GET + path + Ascii(" HTTP/1.1")] + Fields(RequestFields(host, port, key)))
  }

  function ResponseFields(accept: seq<byte>): seq<Named> {
    [Named(UPGRADE, WEBSOCKET), Named(CONNECTION, UPGRADE), Named(ACCEPT, accept)]
  }

  // httpBuildUpgradeResponse
  function Response(accept: seq<byte>): seq<byte> {
    Head([STATUS] + Fields(ResponseFields(accept)))
  }

  // httpBuildError
  function ErrorText(code: nat, reason: string, extra: seq<seq<byte>>): seq<byte> {
    Head([Ascii("HTTP/1.1 ") + Json.Digits(code) + [SPACE] + Ascii(reason)] + extra
         + [Ascii("Content-Length: 0"), Ascii("Connection: close")])
  }

  // What the server does with a complete request: its reply, whether the connection stays open, whether
  // it is then handed over as the sink, and the bytes behind the request.
  datatype Reply = Reply(text: seq<byte>, open: bool, sink: bool, rest: seq<byte>)

  // A path as the C string that it is compared as.
  function UpToNul(path: seq<byte>): seq<byte> {
    path[..IndexOf(path, 0)]
  }

  // The reply to a request that parsed as h, with these bytes behind it.
  function ReplyTo(h: Handshake, sinkPath: seq<byte>, rest: seq<byte>): Reply {
    match h
    case Ok(path, accept) => Reply(Response(accept), true, UpToNul(path) == sinkPath, rest)
    case BadVersion =>
      Reply(ErrorText(426, "Upgrade Required", [Ascii("Sec-WebSocket-Version: 13")]), false, false, rest)
    case _ => Reply(ErrorText(400, "Bad Request", []), false, false, rest)
  }

  lemma {:induction false} UpToNulMeans(path: seq<byte>, rest: seq<byte>)
    requires forall i :: 0 <= i < |path| ==> path[i] != 0
    ensures UpToNul(path) == path && UpToNul(path + [0] + rest) == path
  {
    assert path[..|path|] == path;
    if path != [] {
      UpToNulMeans(path[1..], rest);
      assert (path + [0] + rest)[1..] == path[1..] + [0] + rest;
      assert path == [path[0]] + path[1..];
    }
  }

  // handleHandshakeRead, from the search for the end of the header on.
  function Answer(rx: seq<byte>, sinkPath: seq<byte>): Option<Reply> {
    match HeaderEnd(rx)
    case None => None
    case Some(end) => Some(ReplyTo(ParseHandshake(rx[..end + 4]), sinkPath, rx[end + 4..]))
  }

  // A peer that has closed already is still answered, but not kept.
  function Kept(r: Reply, rc: int): Reply {
    if rc == 2 then r.(open := false, sink := false) else r
  }

  // What becomes of a connection when bufRecv, with handshakeMax as its cap, has returned rc and rx
  // holds these bytes: it is read again, closed at once, or answered, and then open or closed.
  datatype Greeting = ReadMore | CloseNow | Replied(reply: Reply)

  // handleHandshakeRead
  function Greet(rc: int, rx: seq<byte>, sinkPath: seq<byte>): Greeting {
    if rc == -1 then CloseNow
    else if rc == -2 then Replied(Reply(ErrorText(431, "Request Header Fields Too Large", []), false, false, rx))
    else if rc == 0 then ReadMore
    else
      match Answer(rx, sinkPath)
      case None => if rc == 2 then CloseNow else ReadMore
      case Some(r) => Replied(Kept(r, rc))
  }

  // ---------------------------------------------------------------- the client's check

  datatype Verdict = Incomplete | Refused | Opened(headerLen: nat)

  // processHandshakeResponse: what it makes of the bytes received so far.
  function CheckResponse(rx: seq<byte>, expected: seq<byte>, handshakeMax: nat): Verdict {
    match HeaderEnd(rx)
    case None => if |rx| > handshakeMax then Refused else Incomplete
    case Some(end) =>
      var n := end + 4;
      var p := rx[..n];
      if n < 12 || p[..12] != Ascii("HTTP/1.1 101") then Refused
      else if !AsksUpgrade(p) then Refused
      else if FindHeader(p, ACCEPT) != Some(expected) then Refused
      else Opened(n)
  }

  // ---------------------------------------------------------------- the loops

  method FindLineEnd(p: seq<byte>) returns (i: nat)
    ensures i == LineEnd(p)
  {
    i := 0;
    while i + 1 < |p|
      invariant i <= |p| && LineEnd(p) == i + LineEnd(p[i..])
    {
      assert p[i..][0] == p[i] && p[i..][1] == p[i + 1] && p[i..][1..] == p[i + 1..];
      if p[i] == CR && p[i + 1] == LF {
        return;
      }
      i := i + 1;
    }
    i := |p|;
  }

  ghost predicate EndsLater(p: seq<byte>, i: nat) {
    i <= |p| && HeaderEnd(p) == match HeaderEnd(p[i..]) case None => None case Some(j) => Some(i + j)
  }

  method FindHeaderEnd(p: seq<byte>) returns (r: Option<nat>)
    ensures r == HeaderEnd(p)
    ensures match r
            case None => forall j: nat :: !EmptyLineAt(p, j)
            case Some(i) => EmptyLineAt(p, i) && forall j: nat :: j < i ==> !EmptyLineAt(p, j)
  {
    FirstEmptyLine(p);
    if |p| < 4 {
      return None;
    }
    assert p[0..] == p;
    var i := 0;
    while i + 4 <= |p|
      invariant EndsLater(p, i)
    {
      assert p[i..][1..] == p[i + 1..];
      assert EmptyLineAt(p[i..], 0) <==> EmptyLineAt(p, i);
      if p[i] == CR && p[i + 1] == LF && p[i + 2] == CR && p[i + 3] == LF {
        return Some(i);
      }
      i := i + 1;
    }
    r := None;
  }

  // The value without the spaces around it.
  method Trim(v0: seq<byte>) returns (v: seq<byte>)
    ensures v == TrimRight(TrimLeft(v0))
  {
    v := v0;
    while |v| > 0 && v[0] == SPACE
      invariant TrimLeft(v) == TrimLeft(v0)
    {
      v := v[1..];
    }
    while |v| > 0 && v[|v| - 1] == SPACE
      invariant TrimRight(v) == TrimRight(TrimLeft(v0))
    {
      v := v[..|v| - 1];
    }
  }

  method ValueOf(line: seq<byte>, name: seq<byte>) returns (r: Option<seq<byte>>)
    ensures r == LineValue(line, name)
  {
    r := None;
    if |line| > |name| && line[|name|] == COLON && SameNoCase(line[..|name|], name) {
      var v := Trim(line[|name| + 1..]);
      r := Some(v);
    }
  }

  method FindValue(p: seq<byte>, name: seq<byte>) returns (r: Option<seq<byte>>)
    ensures r == FindHeader(p, name)
  {
    var pos := FindLineEnd(p);
    if pos == |p| {
      return None;
    }
    var rest := p[pos + 2..];
    while |rest| > 0
      invariant FindHeader(p, name) == HeaderIn(rest, name)
      decreases |rest|
    {
      var n := FindLineEnd(rest);
      if n == 0 {
        return None;
      }
      r := ValueOf(rest[..n], name);
      if r.Some? || n == |rest| {
        return;
      }
      rest := rest[n + 2..];
    }
    r := None;
  }

  method SkipToItem(v: seq<byte>, from: nat) returns (i: nat)
    requires from <= |v|
    ensures from <= i <= |v| && v[i..] == SkipSeparators(v[from..])
  {
    i := from;
    while i < |v| && (v[i] == SPACE || v[i] == COMMA)
      invariant from <= i <= |v| && SkipSeparators(v[i..]) == SkipSeparators(v[from..])
    {
      assert v[i..][1..] == v[i + 1..];
      i := i + 1;
    }
  }

  method FindComma(v: seq<byte>, start: nat) returns (i: nat)
    requires start <= |v|
    ensures i == start + IndexOf(v[start..], COMMA)
  {
    i := start;
    while i < |v| && v[i] != COMMA
      invariant start <= i <= |v| && start + IndexOf(v[start..], COMMA) == i + IndexOf(v[i..], COMMA)
    {
      assert v[i..][1..] == v[i + 1..];
      i := i + 1;
    }
  }

  method DropSpaces(v: seq<byte>, start: nat, from: nat) returns (end: nat)
    requires start <= from <= |v|
    ensures start <= end <= from && v[start..end] == TrimRight(v[start..from])
  {
    end := from;
    while end > start && v[end - 1] == SPACE
      invariant start <= end <= from && TrimRight(v[start..end]) == TrimRight(v[start..from])
    {
      assert v[start..end][..end - start - 1] == v[start..end - 1];
      end := end - 1;
    }
  }

  // One item of the list: its bounds and where the rest begins.
  lemma {:induction false} TokenStep(v: seq<byte>, token: seq<byte>, from: nat, start: nat, i: nat)
    requires from <= start <= |v| && v[start..] == SkipSeparators(v[from..])
    requires i == start + IndexOf(v[start..], COMMA)
    ensures HasToken(v[from..], token)
            <==> start < |v| && (SameNoCase(TrimRight(v[start..i]), token) || HasToken(v[i..], token))
  {
    var s := v[start..];
    assert s[..i - start] == v[start..i] && s[i - start..] == v[i..];
  }

  method TakesToken(v: seq<byte>, token: seq<byte>) returns (r: bool)
    ensures r == HasToken(v, token)
    ensures token != [] ==> (r <==> Lists(v, token))
  {
    if token != [] {
      TokenIsItem(v, token);
    }
    var i := 0;
    assert v[0..] == v;
    while i < |v|
      invariant i <= |v| && HasToken(v, token) == HasToken(v[i..], token)
      decreases |v| - i
    {
      ghost var from := i;
      var start := SkipToItem(v, i);
      i := FindComma(v, start);
      TokenStep(v, token, from, start, i);
      if start == |v| {
        return false;
      }
      var end := DropSpaces(v, start, i);
      if SameNoCase(v[start..end], token) {
        return true;
      }
    }
    r := false;
  }

  // wsComputeAccept: None where the source returns -1.
  method ComputeAccept(key: seq<byte>) returns (r: Option<seq<byte>>)
    ensures r == if LegalKey(key) then Some(Accept(key)) else None
  {
    if |key| != 24 {
      return None;
    }
    var n := Base64.CheckedLen(key);
    if n != 16 {
      return None;
    }
    var digest := Sha1.HashAll(key + MAGIC);
    var out := new byte[29];
    DigestLetters(digest);
    var o := Base64.EncodeInto(digest, out);
    assert out[..o] == Base64.Encode(digest);
    r := Some(out[..o]);
  }

  method ChecksUpgrade(p: seq<byte>) returns (ok: bool)
    ensures ok == AsksUpgrade(p)
  {
    var upgrade := FindValue(p, UPGRADE);
    var connection := FindValue(p, CONNECTION);
    if upgrade == None || connection == None {
      return false;
    }
    var a := TakesToken(upgrade.value, WEBSOCKET);
    var b := TakesToken(connection.value, UPGRADE);
    ok := a && b;
  }

  // The accept key for a request, if it brings a legal key.
  method AcceptFor(p: seq<byte>) returns (a: Option<seq<byte>>)
    ensures a == match FindHeader(p, KEY)
                 case None => None
                 case Some(key) => if LegalKey(key) then Some(Accept(key)) else None
  {
    var key := FindValue(p, KEY);
    if key == None {
      return None;
    }
    a := ComputeAccept(key.value);
  }

  method ParseRequest(p: seq<byte>) returns (r: Handshake)
    ensures r == ParseHandshake(p)
  {
    if |p| < 5 || p[..4] != GET {
      return BadRequest;
    }
    var n := IndexOf(p[4..], SPACE);
    if n == |p| - 4 {
      return BadRequest;
    }
    if n == 0 || n >= MAX_PATH {
      return BadRequest;
    }
    var asks := ChecksUpgrade(p);
    if !asks {
      return NotUpgrade;
    }
    var version := FindValue(p, VERSION);
    if version != Some(THIRTEEN) {
      return BadVersion;
    }
    var accept := AcceptFor(p);
    if accept == None {
      return BadRequest;
    }
    r := Ok(p[4..4 + n], accept.value);
  }

  method BuildReply(h: Handshake, sinkPath: seq<byte>, rest: seq<byte>, eof: bool) returns (r: Reply)
    ensures r == Kept(ReplyTo(h, sinkPath, rest), if eof then 2 else 1)
  {
    match h {
      case Ok(path, accept) =>
        r := Reply(Response(accept), true, UpToNul(path) == sinkPath, rest);
      case BadVersion =>
        r := Reply(ErrorText(426, "Upgrade Required", [Ascii("Sec-WebSocket-Version: 13")]), false, false, rest);
      case NotUpgrade =>
        r := Reply(ErrorText(400, "Bad Request", []), false, false, rest);
      case BadRequest =>
        r := Reply(ErrorText(400, "Bad Request", []), false, false, rest);
    }
    if eof {
      r := r.(open := false, sink := false);
    }
  }

  // handleHandshakeRead, with what bufRecv has returned and left in rx.
  method HandshakeRead(rc: int, rx: seq<byte>, sinkPath: seq<byte>) returns (g: Greeting)
    requires rc in {-2, -1, 0, 1, 2}
    ensures g == Greet(rc, rx, sinkPath)
  {
    if rc == -1 {
      return CloseNow;
    }
    if rc == -2 {
      return Replied(Reply(ErrorText(431, "Request Header Fields Too Large", []), false, false, rx));
    }
    if rc == 0 {
      return ReadMore;
    }
    var eof := rc == 2;
    var end := FindHeaderEnd(rx);
    if end == None {
      return if eof then CloseNow else ReadMore;
    }
    var headerLen := end.value + 4;
    var h := ParseRequest(rx[..headerLen]);
    var r := BuildReply(h, sinkPath, rx[headerLen..], eof);
    g := Replied(r);
  }

  // queueHandshake: what is sent, and the accept key to expect; nothing when it does not fit the
  // source's buffer of 1024 bytes.
  method QueueHandshake(nonce: seq<byte>, path: seq<byte>, host: seq<byte>, port: nat)
    returns (r: Option<(seq<byte>, seq<byte>)>)
    requires |nonce| == 16
    ensures var key := Base64.Encode(nonce);
            var p := Request(path, host, port, key);
            r == if |p| < 1024 then Some((p, Accept(key))) else None
  {
    var out := new byte[25];
    KeyIsLegal(nonce);
    var o := Base64.EncodeInto(nonce, out);
    var key := out[..o];
    assert key == Base64.Encode(nonce);
    var accept := ComputeAccept(key);
    var p := Request(path, host, port, key);
    if |p| >= 1024 {
      return None;
    }
    r := Some((p, accept.value));
  }

  // processHandshakeResponse
  method ProcessResponse(rx: seq<byte>, expected: seq<byte>, handshakeMax: nat) returns (v: Verdict)
    ensures v == CheckResponse(rx, expected, handshakeMax)
  {
    var end := FindHeaderEnd(rx);
    if end == None {
      return if |rx| > handshakeMax then Refused else Incomplete;
    }
    var n := end.value + 4;
    var p := rx[..n];
    if n < 12 || p[..12] != Ascii("HTTP/1.1 101") {
      return Refused;
    }
    var upgrade := FindValue(p, UPGRADE);
    if upgrade == None {
      return Refused;
    }
    var a := TakesToken(upgrade.value, WEBSOCKET);
    var connection := FindValue(p, CONNECTION);
    if !a || connection == None {
      return Refused;
    }
    var b := TakesToken(connection.value, UPGRADE);
    var accept := FindValue(p, ACCEPT);
    if !b || accept != Some(expected) {
      return Refused;
    }
    v := Opened(n);
  }

  // ---------------------------------------------------------------- printed heads are read back

  predicate Clean(l: seq<byte>) {
    forall i :: 0 <= i < |l| ==> l[i] != CR
  }

  predicate CleanLines(lines: seq<seq<byte>>) {
    forall i :: 0 <= i < |lines| ==> lines[i] != [] && Clean(lines[i])
  }

  lemma {:induction false} LineEndClean(l: seq<byte>, rest: seq<byte>)
    requires Clean(l)
    ensures LineEnd(l + CRLF + rest) == |l|
  {
    var p := l + CRLF + rest;
    if l != [] {
      assert p[1..] == l[1..] + CRLF + rest;
      LineEndClean(l[1..], rest);
    }
  }

  lemma {:induction false} HeaderEndSkips(l: seq<byte>, tail: seq<byte>)
    requires Clean(l) && tail != [] && tail[0] != CR
    ensures HeaderEnd(l + CRLF + tail) == match HeaderEnd(tail) case None => None case Some(i) => Some(|l| + 2 + i)
  {
    var p := l + CRLF + tail;
    if l == [] {
      assert p[1..][1..] == tail && p[1..][0] == LF;
      assert |tail| < 3 ==> HeaderEnd(tail) == None;
    } else {
      assert p[1..] == l[1..] + CRLF + tail;
      HeaderEndSkips(l[1..], tail);
    }
  }

  lemma {:induction false} HeaderEndLast(l: seq<byte>, rest: seq<byte>)
    requires Clean(l)
    ensures HeaderEnd(l + CRLF + (CRLF + rest)) == Some(|l|)
  {
    var p := l + CRLF + (CRLF + rest);
    if l == [] {
      assert EmptyLineAt(p, 0);
    } else {
      assert p[1..] == l[1..] + CRLF + (CRLF + rest);
      HeaderEndLast(l[1..], rest);
    }
  }

  // The end of a printed head is found at its end, whatever follows.
  lemma {:induction false} HeadEnds(lines: seq<seq<byte>>, rest: seq<byte>)
    requires lines != [] && CleanLines(lines)
    ensures |Head(lines)| >= 4 && HeaderEnd(Head(lines) + rest) == Some(|Head(lines)| - 4)
  {
    var l := lines[0];
    if |lines| == 1 {
      assert lines[1..] == [];
      assert Head(lines) + rest == l + CRLF + (CRLF + rest);
      HeaderEndLast(l, rest);
    } else {
      HeadEnds(lines[1..], rest);
      var tail := Head(lines[1..]) + rest;
      assert lines[1..][0] == lines[1] && Head(lines[1..])[0] == lines[1][0];
      assert tail[0] == lines[1][0];
      assert Head(lines) + rest == l + CRLF + tail;
      HeaderEndSkips(l, tail);
    }
  }

  // The value of the first line with this name.
  function Lookup(lines: seq<seq<byte>>, name: seq<byte>): Option<seq<byte>> {
    if lines == [] then None
    else match LineValue(lines[0], name) case Some(v) => Some(v) case None => Lookup(lines[1..], name)
  }

  lemma {:induction false} HeaderInHead(lines: seq<seq<byte>>, name: seq<byte>)
    requires CleanLines(lines)
    ensures HeaderIn(Head(lines), name) == Lookup(lines, name)
  {
    if lines != [] {
      var l, tail := lines[0], Head(lines[1..]);
      LineEndClean(l, tail);
      HeaderInHead(lines[1..], name);
      assert Head(lines)[..|l|] == l && Head(lines)[|l| + 2..] == tail;
    }
  }

  lemma {:induction false} FindHeaderInHead(lines: seq<seq<byte>>, name: seq<byte>)
    requires lines != [] && CleanLines(lines)
    ensures FindHeader(Head(lines), name) == Lookup(lines[1..], name)
  {
    LineEndClean(lines[0], Head(lines[1..]));
    HeaderInHead(lines[1..], name);
    assert Head(lines)[|lines[0]| + 2..] == Head(lines[1..]);
  }

  // ---------------------------------------------------------------- fields

  predicate NoColon(name: seq<byte>) {
    forall i :: 0 <= i < |name| ==> name[i] != COLON
  }

  predicate Trimmed(v: seq<byte>) {
    v == [] || (v[0] != SPACE && v[|v| - 1] != SPACE)
  }

  // What can stand in a header line: no colon in the name, no line break anywhere.
  predicate Printable(f: Named) {
    NoColon(f.name) && Clean(f.name) && Clean(f.value) && Trimmed(f.value)
  }

  function Spaces(n: nat): (s: seq<byte>)
    ensures |s| == n
  {
    seq(n, _ => SPACE)
  }

  // A header line with this name and this value, whatever spaces stand around the value.
  ghost predicate Spells(line: seq<byte>, f: Named) {
    Printable(f) && exists a, b: nat :: line == f.name + [COLON] + (Spaces(a) + f.value + Spaces(b))
  }

  ghost predicate SpellAll(lines: seq<seq<byte>>, fs: seq<Named>) {
    |lines| == |fs| && forall i :: 0 <= i < |fs| ==> Spells(lines[i], fs[i])
  }

  // The first field with this name, in whatever case, has this value.
  function ValueOfName(fs: seq<Named>, name: seq<byte>): Option<seq<byte>> {
    if fs == [] then None
    else if SameNoCase(fs[0].name, name) then Some(fs[0].value)
    else ValueOfName(fs[1..], name)
  }

  lemma {:induction false} TrimSpacesRight(v: seq<byte>, b: nat)
    requires Trimmed(v)
    ensures TrimRight(v + Spaces(b)) == v
  {
    if b == 0 {
      assert v + Spaces(0) == v;
    } else {
      assert (v + Spaces(b))[..|v| + b - 1] == v + Spaces(b - 1);
      TrimSpacesRight(v, b - 1);
    }
  }

  lemma {:induction false} TrimSpacesLeft(v: seq<byte>, a: nat)
    ensures TrimLeft(Spaces(a) + v) == TrimLeft(v)
  {
    if a == 0 {
      assert Spaces(0) + v == v;
    } else {
      assert (Spaces(a) + v)[1..] == Spaces(a - 1) + v;
      TrimSpacesLeft(v, a - 1);
    }
  }

  lemma {:induction false} TrimSpaces(a: nat, v: seq<byte>, b: nat)
    requires Trimmed(v)
    ensures TrimRight(TrimLeft(Spaces(a) + v + Spaces(b))) == v
  {
    Assoc(Spaces(a), v, Spaces(b));
    TrimSpacesLeft(v + Spaces(b), a);
    if v == [] {
      assert v + Spaces(b) == Spaces(b) + [] == Spaces(b);
      TrimSpacesLeft([], b);
    } else {
      TrimSpacesRight(v, b);
    }
  }

  lemma {:induction false} OtherName(line: seq<byte>, name: seq<byte>, target: seq<byte>)
    requires NoColon(name) && NoColon(target) && |name| != |target|
    requires |line| > |name| && line[..|name|] == name && line[|name|] == COLON
    ensures LineValue(line, target) == None
  {
    if |target| < |name| {
      assert line[|target|] == name[|target|];
    } else if |line| > |target| {
      assert line[..|target|][|name|] == COLON;
      assert Lower(target[|name|]) != Lower(COLON);
    }
  }

  // A line is found by its name alone, and gives its value.
  lemma {:induction false} SpelledLine(line: seq<byte>, f: Named, target: seq<byte>)
    requires Spells(line, f) && NoColon(target)
    ensures LineValue(line, target) == if SameNoCase(f.name, target) then Some(f.value) else None
  {
    var a, b: nat :| line == f.name + [COLON] + (Spaces(a) + f.value + Spaces(b));
    assert line[..|f.name|] == f.name && line[|f.name|] == COLON;
    if |f.name| == |target| {
      assert line[|f.name| + 1..] == Spaces(a) + f.value + Spaces(b);
      TrimSpaces(a, f.value, b);
    } else {
      OtherName(line, f.name, target);
    }
  }

  lemma {:induction false} SpelledIsClean(line: seq<byte>, f: Named)
    requires Spells(line, f)
    ensures line != [] && Clean(line)
  {
    var a, b: nat :| line == f.name + [COLON] + (Spaces(a) + f.value + Spaces(b));
    CleanJoin(Spaces(a), f.value);
    CleanJoin(Spaces(a) + f.value, Spaces(b));
    CleanJoin(f.name, [COLON]);
    CleanJoin(f.name + [COLON], Spaces(a) + f.value + Spaces(b));
  }

  lemma {:induction false} CleanJoin(a: seq<byte>, b: seq<byte>)
    requires Clean(a) && Clean(b)
    ensures Clean(a + b)
  {
  }

  lemma {:induction false} SpelledLines(lines: seq<seq<byte>>, fs: seq<Named>)
    requires SpellAll(lines, fs)
    ensures CleanLines(lines)
  {
    forall i | 0 <= i < |lines| ensures lines[i] != [] && Clean(lines[i]) {
      SpelledIsClean(lines[i], fs[i]);
    }
  }

  lemma {:induction false} LookupSpelled(lines: seq<seq<byte>>, fs: seq<Named>, name: seq<byte>)
    requires SpellAll(lines, fs) && NoColon(name)
    ensures Lookup(lines, name) == ValueOfName(fs, name)
  {
    if lines != [] {
      SpelledLine(lines[0], fs[0], name);
      LookupSpelled(lines[1..], fs[1..], name);
    }
  }

  // Both sides find in the other's head the first field with a name.
  lemma {:induction false} FoundInHead(first: seq<byte>, lines: seq<seq<byte>>, fs: seq<Named>, name: seq<byte>)
    requires first != [] && Clean(first) && SpellAll(lines, fs) && NoColon(name)
    ensures FindHeader(Head([first] + lines), name) == ValueOfName(fs, name)
  {
    SpelledLines(lines, fs);
    FindHeaderInHead([first] + lines, name);
    assert ([first] + lines)[1..] == lines;
    LookupSpelled(lines, fs, name);
  }

  predicate LegalName(name: seq<byte>) {
    NoColon(name) && Clean(name)
  }

  lemma {:induction false} ShortNames()
    ensures LegalName(HOST) && LegalName(UPGRADE) && LegalName(CONNECTION)
    ensures |HOST| == 4 && |UPGRADE| == 7 && |CONNECTION| == 10
  {
  }

  lemma {:induction false} KeyName()
    ensures LegalName(KEY) && |KEY| == 17
  {
  }

  lemma {:induction false} VersionName()
    ensures LegalName(VERSION) && |VERSION| == 21
  {
  }

  lemma {:induction false} AcceptName()
    ensures LegalName(ACCEPT) && |ACCEPT| == 20
  {
  }

  lemma {:induction false} Names()
    ensures LegalName(HOST) && LegalName(UPGRADE) && LegalName(CONNECTION)
    ensures LegalName(KEY) && LegalName(VERSION) && LegalName(ACCEPT)
    ensures |HOST| == 4 && |UPGRADE| == 7 && |CONNECTION| == 10 && |KEY| == 17 && |VERSION| == 21 && |ACCEPT| == 20
  {
    ShortNames();
    KeyName();
    VersionName();
    AcceptName();
  }

  // Some field asks for this: the first one with this name lists the token.
  ghost predicate Offers(fs: seq<Named>, name: string, token: string) {
    var v := ValueOfName(fs, Ascii(name));
    v.Some? && Lists(v.value, Ascii(token))
  }

  lemma {:induction false} AsksByFields(first: seq<byte>, lines: seq<seq<byte>>, fs: seq<Named>)
    requires first != [] && Clean(first) && SpellAll(lines, fs)
    ensures AsksUpgrade(Head([first] + lines))
            <==> Offers(fs, "Upgrade", "websocket") && Offers(fs, "Connection", "Upgrade")
  {
    Names();
    var upgrade, connection := ValueOfName(fs, UPGRADE), ValueOfName(fs, CONNECTION);
    FoundInHead(first, lines, fs, UPGRADE);
    FoundInHead(first, lines, fs, CONNECTION);
    if upgrade.Some? {
      TokenIsItem(upgrade.value, WEBSOCKET);
    }
    if connection.Some? {
      TokenIsItem(connection.value, UPGRADE);
    }
  }

  // ---------------------------------------------------------------- which requests are accepted

  predicate NoSpace(path: seq<byte>) {
    forall i :: 0 <= i < |path| ==> path[i] != SPACE
  }

  lemma {:induction false} IndexOfFirst(a: seq<byte>, c: byte, rest: seq<byte>)
    requires forall i :: 0 <= i < |a| ==> a[i] != c
    ensures IndexOf(a + [c] + rest, c) == |a|
  {
    if a != [] {
      assert (a + [c] + rest)[1..] == a[1..] + [c] + rest;
      IndexOfFirst(a[1..], c, rest);
    }
  }

  lemma {:induction false} RequestLine(path: seq<byte>, more: seq<byte>, tail: seq<byte>)
    requires NoSpace(path)
    ensures var p := GET + path + [SPACE] + more + tail;
            |p| >= 5 && p[..4] == GET && IndexOf(p[4..], SPACE) == |path| < |p| - 4 && p[4..4 + |path|] == path
  {
    var p := GET + path + [SPACE] + more + tail;
    assert p == GET + (path + [SPACE] + (more + tail));
    assert p[4..] == path + [SPACE] + (more + tail);
    IndexOfFirst(path, SPACE, more + tail);
  }

  // Without a request line that names a path of 1 to 255 bytes there is nothing to accept.
  lemma {:induction false} NeedsRequestLine(p: seq<byte>)
    requires ParseHandshake(p) != BadRequest
    ensures exists path, more ::
              p == Ascii("GET ") + path + Ascii(" ") + more && NoSpace(path) && 1 <= |path| <= 255
  {
    var n := IndexOf(p[4..], SPACE);
    var path, more := p[4..4 + n], p[5 + n..];
    assert p == p[..4] + path + [SPACE] + more;
    assert Ascii(" ") == [SPACE];
    assert forall i :: 0 <= i < n ==> path[i] == p[4..][i];
  }

  // A key of sixteen bytes.
  ghost predicate SixteenBytes(key: seq<byte>) {
    |key| == 24 && Base64.Decode(key).Some? && |Base64.Decode(key).value| == 16
  }

  lemma {:induction false} LegalIsSixteen(key: seq<byte>)
    ensures LegalKey(key) <==> SixteenBytes(key)
  {
    Base64.DecodedLenIsLength(key);
  }

  // What the server makes of a request with these fields: it is accepted exactly when it asks for the
  // upgrade in both fields, in version 13, with a key of sixteen bytes; and otherwise the first of these
  // that is missing decides which refusal it is.
  ghost function Judged(path: seq<byte>, fs: seq<Named>): Handshake {
    var version, key := ValueOfName(fs, Ascii("Sec-WebSocket-Version")), ValueOfName(fs, Ascii("Sec-WebSocket-Key"));
    if |path| == 0 || |path| > 255 then BadRequest
    else if !Offers(fs, "Upgrade", "websocket") || !Offers(fs, "Connection", "Upgrade") then NotUpgrade
    else if version != Some(Ascii("13")) then BadVersion
    else if key == None || !SixteenBytes(key.value) then BadRequest
    else Ok(path, Accept(key.value))
  }

  lemma {:induction false} JudgedMeans(path: seq<byte>, fs: seq<Named>)
    ensures var r, fits := Judged(path, fs), 1 <= |path| <= 255;
            var asks := Offers(fs, "Upgrade", "websocket") && Offers(fs, "Connection", "Upgrade");
            var thirteen := ValueOfName(fs, Ascii("Sec-WebSocket-Version")) == Some(Ascii("13"));
            var key := ValueOfName(fs, Ascii("Sec-WebSocket-Key"));
            var legal := key.Some? && |key.value| == 24 && exists k :: Base64.Decode(key.value) == Some(k) && |k| == 16;
            && (r.Ok? <==> fits && asks && thirteen && legal)
            && (r.Ok? ==> r == Ok(path, Accept(key.value)))
            && (r == NotUpgrade <==> fits && !asks)
            && (r == BadVersion <==> fits && asks && !thirteen)
            && (r == BadRequest <==> !fits || (asks && thirteen && !legal))
  {
  }

  // What the parser looks at, and in which order.
  lemma {:induction false} JudgedBy(p: seq<byte>, path: seq<byte>, fs: seq<Named>)
    requires |p| >= 5 && p[..4] == GET && IndexOf(p[4..], SPACE) == |path| < |p| - 4 && p[4..4 + |path|] == path
    requires AsksUpgrade(p) <==> Offers(fs, "Upgrade", "websocket") && Offers(fs, "Connection", "Upgrade")
    requires FindHeader(p, VERSION) == ValueOfName(fs, VERSION) && FindHeader(p, KEY) == ValueOfName(fs, KEY)
    ensures ParseHandshake(p) == Judged(path, fs)
  {
    if ValueOfName(fs, KEY).Some? {
      LegalIsSixteen(ValueOfName(fs, KEY).value);
    }
  }

  // Whatever fields a request has, in whatever order, case and spacing.
  lemma {:induction false} RequestIsJudged(path: seq<byte>, more: seq<byte>, lines: seq<seq<byte>>, fs: seq<Named>)
    requires NoSpace(path) && Clean(path) && Clean(more) && SpellAll(lines, fs)
    ensures ParseHandshake(Head([Ascii("GET ") + path + Ascii(" ") + more] + lines)) == Judged(path, fs)
  {
    var first := Ascii("GET ") + path + Ascii(" ") + more;
    FirstIsClean(path, more);
    assert ([first] + lines)[1..] == lines;
    assert Head([first] + lines) == first + (CRLF + Head(lines));
    RequestLine(path, more, CRLF + Head(lines));
    AsksByFields(first, lines, fs);
    KeyName();
    VersionName();
    FoundInHead(first, lines, fs, VERSION);
    FoundInHead(first, lines, fs, KEY);
    JudgedBy(Head([first] + lines), path, fs);
  }

  lemma {:induction false} FirstIsClean(path: seq<byte>, more: seq<byte>)
    requires Clean(path) && Clean(more)
    ensures Ascii(" ") == [SPACE]
    ensures var first := Ascii("GET ") + path + Ascii(" ") + more; first != [] && Clean(first)
  {
    assert Clean(Ascii("GET "));
    CleanJoin(Ascii("GET "), path);
    CleanJoin(Ascii("GET ") + path, Ascii(" "));
    CleanJoin(Ascii("GET ") + path + Ascii(" "), more);
  }

  // And what the client makes of a response with these fields, once its header is complete.
  lemma {:induction false} ResponseIsJudged(status: seq<byte>, lines: seq<seq<byte>>, fs: seq<Named>, more: seq<byte>,
                                            expected: seq<byte>, handshakeMax: nat)
    requires status != [] && Clean(status) && SpellAll(lines, fs)
    ensures var p := Head([status] + lines);
            CheckResponse(p + more, expected, handshakeMax)
            == if && Ascii("HTTP/1.1 101") <= status
                  && Offers(fs, "Upgrade", "websocket") && Offers(fs, "Connection", "Upgrade")
                  && ValueOfName(fs, Ascii("Sec-WebSocket-Accept")) == Some(expected)
               then Opened(|p|)
               else Refused
  {
    var p := Head([status] + lines);
    SpelledLines(lines, fs);
    CleanFirst(status, lines);
    HeadEnds([status] + lines, more);
    assert (p + more)[..|p|] == p;
    StatusCode(status, lines);
    AsksByFields(status, lines, fs);
    Names();
    FoundInHead(status, lines, fs, ACCEPT);
  }

  lemma {:induction false} StatusCode(status: seq<byte>, lines: seq<seq<byte>>)
    requires Clean(status)
    ensures var p := Head([status] + lines);
            |p| >= 12 && p[..12] == Ascii("HTTP/1.1 101") <==> Ascii("HTTP/1.1 101") <= status
  {
    var p := Head([status] + lines);
    assert p == status + (CRLF + Head(lines)) by {
      assert ([status] + lines)[1..] == lines;
    }
    if |status| < 12 {
      assert p[|status|] == CR;
      assert Clean(Ascii("HTTP/1.1 101"));
      if |p| >= 12 {
        assert p[..12][|status|] == CR;
      }
    } else {
      assert p[..12] == status[..12];
    }
  }

  lemma {:induction false} CleanFirst(first: seq<byte>, lines: seq<seq<byte>>)
    requires first != [] && Clean(first) && CleanLines(lines)
    ensures CleanLines([first] + lines)
  {
  }

  // ---------------------------------------------------------------- interoperation

  function Core(v: seq<byte>): seq<byte> {
    TrimRight(TrimLeft(v))
  }

  lemma {:induction false} LeftSplits(v: seq<byte>) returns (a: nat)
    ensures v == Spaces(a) + TrimLeft(v) && (TrimLeft(v) == [] || TrimLeft(v)[0] != SPACE)
  {
    a := 0;
    assert v == Spaces(0) + v;
    if v != [] && v[0] == SPACE {
      var n := LeftSplits(v[1..]);
      a := n + 1;
      assert v == [SPACE] + v[1..];
      assert Spaces(a) == [SPACE] + Spaces(n);
    }
  }

  lemma {:induction false} RightSplits(v: seq<byte>) returns (b: nat)
    ensures v == TrimRight(v) + Spaces(b) && (TrimRight(v) == [] || TrimRight(v)[|TrimRight(v)| - 1] != SPACE)
  {
    b := 0;
    assert v == v + Spaces(0);
    if v != [] && v[|v| - 1] == SPACE {
      var n := RightSplits(v[..|v| - 1]);
      b := n + 1;
      assert v == v[..|v| - 1] + [SPACE];
      assert Spaces(b) == Spaces(n) + [SPACE];
    }
  }

  lemma {:induction false} CoreSplits(v: seq<byte>) returns (a: nat, b: nat)
    ensures v == Spaces(a) + (Core(v) + Spaces(b)) && Trimmed(Core(v)) && (Clean(v) ==> Clean(Core(v)))
  {
    a := LeftSplits(v);
    b := RightSplits(TrimLeft(v));
    assert forall i :: 0 <= i < |Core(v)| ==> Core(v)[i] == v[a + i];
  }

  // The way both sides print a field spells its value, less the spaces around it.
  lemma {:induction false} FieldSpells(f: Named)
    requires NoColon(f.name) && Clean(f.name) && Clean(f.value)
    ensures Spells(Field(f), Named(f.name, Core(f.value)))
  {
    var a, b := CoreSplits(f.value);
    OneMoreSpace(f.name, a, Core(f.value) + Spaces(b));
    Assoc(Spaces(a + 1), Core(f.value), Spaces(b));
  }

  lemma {:induction false} OneMoreSpace(name: seq<byte>, a: nat, rest: seq<byte>)
    ensures name + [COLON, SPACE] + (Spaces(a) + rest) == name + [COLON] + (Spaces(a + 1) + rest)
  {
    assert Spaces(a + 1) == [SPACE] + Spaces(a);
  }

  function Cores(fs: seq<Named>): (r: seq<Named>)
    ensures |r| == |fs|
  {
    seq(|fs|, i requires 0 <= i < |fs| => Named(fs[i].name, Core(fs[i].value)))
  }

  predicate CleanNamed(f: Named) {
    NoColon(f.name) && Clean(f.name) && Clean(f.value)
  }

  lemma {:induction false} FieldsSpell(fs: seq<Named>)
    requires forall i :: 0 <= i < |fs| ==> CleanNamed(fs[i])
    ensures SpellAll(Fields(fs), Cores(fs))
  {
    forall i | 0 <= i < |fs| ensures Spells(Fields(fs)[i], Cores(fs)[i]) {
      assert CleanNamed(fs[i]);
      FieldSpells(fs[i]);
    }
  }

  lemma {:induction false} FirstNamed(fs: seq<Named>, k: nat)
    requires k < |fs| && Trimmed(fs[k].value) && forall i :: 0 <= i < k ==> |fs[i].name| != |fs[k].name|
    ensures ValueOfName(Cores(fs), fs[k].name) == Some(fs[k].value)
  {
    if k == 0 {
      TrimSpaces(0, fs[0].value, 0);
      assert Spaces(0) + fs[0].value + Spaces(0) == fs[0].value;
    } else {
      assert Cores(fs)[1..] == Cores(fs[1..]);
      FirstNamed(fs[1..], k - 1);
    }
  }

  predicate Solid(v: seq<byte>) {
    v != [] && forall i :: 0 <= i < |v| ==> v[i] != SPACE && v[i] != COMMA && v[i] != CR
  }

  // A value without spaces and commas is a list of itself.
  lemma {:induction false} SolidStands(v: seq<byte>)
    requires Solid(v)
    ensures Lists(v, v) && Clean(v) && Trimmed(v)
  {
    assert v[..|v|] == v;
    assert Items(v) == [v] && TrimLeft(v) == v && TrimRight(v) == v;
    assert IsItem(Items(v)[0], v);
  }

  lemma {:induction false} SolidWebsocket()
    ensures Solid(WEBSOCKET)
  {
  }

  lemma {:induction false} SolidUpgrade()
    ensures Solid(UPGRADE)
  {
  }

  lemma {:induction false} SolidThirteen()
    ensures Solid(THIRTEEN)
  {
  }

  lemma {:induction false} Tokens()
    ensures Lists(WEBSOCKET, WEBSOCKET) && Clean(WEBSOCKET) && Trimmed(WEBSOCKET)
    ensures Lists(UPGRADE, UPGRADE) && Clean(UPGRADE) && Trimmed(UPGRADE)
    ensures Clean(THIRTEEN) && Trimmed(THIRTEEN)
  {
    SolidWebsocket();
    SolidStands(WEBSOCKET);
    SolidUpgrade();
    SolidStands(UPGRADE);
    SolidThirteen();
    SolidStands(THIRTEEN);
  }

  lemma {:induction false} EncodedIsPlain(p: seq<byte>)
    ensures Clean(Base64.Encode(p)) && Trimmed(Base64.Encode(p))
  {
    var ds := Base64.Sextets(p);
    forall i | 0 <= i < |ds| ensures Base64.Encode(p)[i] !in {SPACE, CR} {
      assert Base64.Encode(p)[i] == Base64.Letter(ds[i]);
    }
  }

  lemma {:induction false} DigitsAreClean(n: nat)
    ensures Clean(Json.Digits(n))
  {
    Json.DigitsValue(n);
  }

  lemma {:induction false} FiveSpell(a: Named, b: Named, c: Named, d: Named, e: Named)
    requires CleanNamed(a) && CleanNamed(b) && CleanNamed(c) && CleanNamed(d) && CleanNamed(e)
    ensures SpellAll(Fields([a, b, c, d, e]), Cores([a, b, c, d, e]))
  {
    FieldsSpell([a, b, c, d, e]);
  }

  lemma {:induction false} FiveFound(a: Named, b: Named, c: Named, d: Named, e: Named)
    requires |a.name| < |b.name| < |c.name| < |d.name| < |e.name|
    requires Trimmed(b.value) && Trimmed(c.value) && Trimmed(d.value) && Trimmed(e.value)
    ensures var fs := Cores([a, b, c, d, e]);
            && ValueOfName(fs, b.name) == Some(b.value) && ValueOfName(fs, c.name) == Some(c.value)
            && ValueOfName(fs, d.name) == Some(d.value) && ValueOfName(fs, e.name) == Some(e.value)
  {
    FirstNamed([a, b, c, d, e], 1);
    FirstNamed([a, b, c, d, e], 2);
    FirstNamed([a, b, c, d, e], 3);
    FirstNamed([a, b, c, d, e], 4);
  }

  lemma {:induction false} BothOffered(fs: seq<Named>)
    requires ValueOfName(fs, UPGRADE) == Some(WEBSOCKET) && ValueOfName(fs, CONNECTION) == Some(UPGRADE)
    ensures Offers(fs, "Upgrade", "websocket") && Offers(fs, "Connection", "Upgrade")
  {
    Tokens();
  }

  lemma {:induction false} HostIsClean(host: seq<byte>, port: nat)
    requires Clean(host)
    ensures CleanNamed(Named(HOST, host + [COLON] + Json.Digits(port)))
  {
    ShortNames();
    DigitsAreClean(port);
    CleanJoin(host, [COLON]);
    CleanJoin(host + [COLON], Json.Digits(port));
  }

  lemma {:induction false} AskingIsClean()
    ensures CleanNamed(Named(UPGRADE, WEBSOCKET)) && CleanNamed(Named(CONNECTION, UPGRADE))
  {
    ShortNames();
    Tokens();
  }

  lemma {:induction false} RequestIsClean(host: seq<byte>, port: nat, key: seq<byte>)
    requires Clean(host) && Clean(key)
    ensures var fs := RequestFields(host, port, key); SpellAll(Fields(fs), Cores(fs))
  {
    HostIsClean(host, port);
    AskingIsClean();
    KeyName();
    VersionName();
    Tokens();
    FiveSpell(Named(HOST, host + [COLON] + Json.Digits(port)), Named(UPGRADE, WEBSOCKET), Named(CONNECTION, UPGRADE),
              Named(KEY, key), Named(VERSION, THIRTEEN));
  }

  // The client's fields ask for everything, ...
  lemma {:induction false} RequestAsks(host: seq<byte>, port: nat, key: seq<byte>)
    requires Trimmed(key)
    ensures var fs := Cores(RequestFields(host, port, key));
            && Offers(fs, "Upgrade", "websocket") && Offers(fs, "Connection", "Upgrade")
            && ValueOfName(fs, KEY) == Some(key) && ValueOfName(fs, VERSION) == Some(THIRTEEN)
  {
    Names();
    Tokens();
    FiveFound(Named(HOST, host + [COLON] + Json.Digits(port)), Named(UPGRADE, WEBSOCKET), Named(CONNECTION, UPGRADE),
              Named(KEY, key), Named(VERSION, THIRTEEN));
    BothOffered(Cores(RequestFields(host, port, key)));
  }

  lemma {:induction false} KeyIsLegal(nonce: seq<byte>)
    requires |nonce| == 16
    ensures var key := Base64.Encode(nonce); LegalKey(key) && SixteenBytes(key) && Clean(key) && Trimmed(key)
  {
    Base64.RoundTrip(nonce);
    Base64.DecodedLenIsLength(Base64.Encode(nonce));
    EncodedIsPlain(nonce);
  }

  // ... and the server accepts its request exactly when the path has between 1 and 255 bytes, and then it
  // reads the same path and answers with the accept key that the client expects.
  lemma {:induction false} ServerReadsRequest(nonce: seq<byte>, path: seq<byte>, host: seq<byte>, port: nat)
    requires |nonce| == 16 && Clean(path) && NoSpace(path) && Clean(host)
    ensures var key := Base64.Encode(nonce);
            ParseHandshake(Request(path, host, port, key))
            == if 1 <= |path| <= 255 then Ok(path, Accept(key)) else BadRequest
  {
    var key := Base64.Encode(nonce);
    var fs := RequestFields(host, port, key);
    KeyIsLegal(nonce);
    RequestIsClean(host, port, key);
    RequestAsks(host, port, key);
    FirstLine(path);
    RequestIsJudged(path, Ascii("HTTP/1.1"), Fields(fs), Cores(fs));
  }

  lemma {:induction false} FirstLine(path: seq<byte>)
    ensures Clean(Ascii("HTTP/1.1"))
    ensures GET + path + Ascii(" HTTP/1.1") == Ascii("GET ") + path + Ascii(" ") + Ascii("HTTP/1.1")
    ensures GET + path + Ascii(" HTTP/1.1") != [] && (Clean(path) ==> Clean(GET + path + Ascii(" HTTP/1.1")))
  {
    assert Ascii(" HTTP/1.1") == Ascii(" ") + Ascii("HTTP/1.1");
    assert Clean(GET) && Clean(Ascii(" HTTP/1.1"));
    if Clean(path) {
      CleanJoin(GET, path);
      CleanJoin(GET + path, Ascii(" HTTP/1.1"));
    }
  }

  // It finds the end of the request whatever the client sends after it.
  lemma {:induction false} RequestEnds(path: seq<byte>, host: seq<byte>, port: nat, key: seq<byte>, more: seq<byte>)
    requires Clean(path) && Clean(host) && Clean(key)
    ensures var p := Request(path, host, port, key); |p| >= 4 && HeaderEnd(p + more) == Some(|p| - 4)
  {
    var fs := RequestFields(host, port, key);
    RequestIsClean(host, port, key);
    FirstLine(path);
    SpelledLines(Fields(fs), Cores(fs));
    CleanFirst(GET + path + Ascii(" HTTP/1.1"), Fields(fs));
    HeadEnds([GET + path + Ascii(" HTTP/1.1")] + Fields(fs), more);
  }

  const STATUS := Ascii("HTTP/1.1 101 Switching Protocols")

  lemma {:induction false} StatusIsClean()
    ensures STATUS != [] && Clean(STATUS) && Ascii("HTTP/1.1 101") <= STATUS
  {
    assert STATUS[..12] == Ascii("HTTP/1.1 101");
  }

  lemma {:induction false} ThreeSpell(a: Named, b: Named, c: Named)
    requires CleanNamed(a) && CleanNamed(b) && CleanNamed(c)
    ensures SpellAll(Fields([a, b, c]), Cores([a, b, c]))
  {
    FieldsSpell([a, b, c]);
  }

  lemma {:induction false} ThreeFound(a: Named, b: Named, c: Named)
    requires |a.name| < |b.name| < |c.name| && Trimmed(a.value) && Trimmed(b.value) && Trimmed(c.value)
    ensures var fs := Cores([a, b, c]);
            && ValueOfName(fs, a.name) == Some(a.value) && ValueOfName(fs, b.name) == Some(b.value)
            && ValueOfName(fs, c.name) == Some(c.value)
  {
    FirstNamed([a, b, c], 0);
    FirstNamed([a, b, c], 1);
    FirstNamed([a, b, c], 2);
  }

  lemma {:induction false} ResponseIsClean(accept: seq<byte>)
    requires Clean(accept)
    ensures var fs := ResponseFields(accept); SpellAll(Fields(fs), Cores(fs))
  {
    AskingIsClean();
    AcceptName();
    ThreeSpell(Named(UPGRADE, WEBSOCKET), Named(CONNECTION, UPGRADE), Named(ACCEPT, accept));
  }

  lemma {:induction false} ResponseOffers(accept: seq<byte>)
    requires Trimmed(accept)
    ensures var fs := Cores(ResponseFields(accept));
            && Offers(fs, "Upgrade", "websocket") && Offers(fs, "Connection", "Upgrade")
            && ValueOfName(fs, ACCEPT) == Some(accept)
  {
    ShortNames();
    AcceptName();
    Tokens();
    ThreeFound(Named(UPGRADE, WEBSOCKET), Named(CONNECTION, UPGRADE), Named(ACCEPT, accept));
    BothOffered(Cores(ResponseFields(accept)));
  }

  // The client accepts the server's answer, finds its end whatever follows, and keeps what follows.
  lemma {:induction false} ClientReadsResponse(key: seq<byte>, more: seq<byte>, handshakeMax: nat)
    ensures var p := Response(Accept(key));
            && CheckResponse(p + more, Accept(key), handshakeMax) == Opened(|p|)
            && (p + more)[|p|..] == more
  {
    var accept := Accept(key);
    var fs := ResponseFields(accept);
    EncodedIsPlain(Sha1.Digest(key + MAGIC));
    StatusIsClean();
    ResponseIsClean(accept);
    ResponseOffers(accept);
    ResponseIsJudged(STATUS, Fields(fs), Cores(fs), more, accept, handshakeMax);
  }

  lemma {:induction false} ResponseEnds(key: seq<byte>)
    ensures var p := Response(Accept(key)); |p| >= 4 && HeaderEnd(p) == Some(|p| - 4)
  {
    var accept := Accept(key);
    var fs := ResponseFields(accept);
    EncodedIsPlain(Sha1.Digest(key + MAGIC));
    StatusIsClean();
    ResponseIsClean(accept);
    SpelledLines(Fields(fs), Cores(fs));
    CleanFirst(STATUS, Fields(fs));
    HeadEnds([STATUS] + Fields(fs), []);
    assert Response(accept) + [] == Response(accept);
  }

  // ---------------------------------------------------------------- what the server answers

  lemma {:induction false} Numerals()
    ensures Json.Digits(400) == Ascii("400") && Json.Digits(426) == Ascii("426") && Json.Digits(431) == Ascii("431")
  {
  }

  lemma {:induction false} HeadOf(a: seq<byte>, b: seq<byte>, c: seq<byte>, d: seq<byte>)
    ensures Head([a, b, c]) == a + CRLF + b + CRLF + c + CRLF + CRLF
    ensures Head([a, b, c, d]) == a + CRLF + b + CRLF + c + CRLF + d + CRLF + CRLF
  {
    assert [a, b, c, d][1..] == [b, c, d] && [a, b, c][1..] == [b, c] && [b, c, d][1..] == [c, d];
    assert [b, c][1..] == [c] && [c, d][1..] == [d] && [c][1..] == [] && [d][1..] == [];
    assert Head([c]) == c + CRLF + CRLF && Head([d]) == d + CRLF + CRLF;
    assert Head([b, c]) == b + CRLF + Head([c]) && Head([c, d]) == c + CRLF + Head([d]);
    assert Head([b, c, d]) == b + CRLF + Head([c, d]);
  }

  lemma {:induction false} HeadCons(l: seq<byte>, lines: seq<seq<byte>>)
    ensures Head([l] + lines) == l + CRLF + Head(lines)
  {
    assert ([l] + lines)[1..] == lines;
  }

  lemma {:induction false} FieldsCons(f: Named, fs: seq<Named>)
    ensures Fields([f] + fs) == [Field(f)] + Fields(fs)
  {
  }

  lemma {:induction false} FieldFirst(f: Named, fs: seq<Named>)
    ensures Head(Fields([f] + fs)) == f.name + [COLON, SPACE] + f.value + CRLF + Head(Fields(fs))
  {
    FieldsCons(f, fs);
    HeadCons(Field(f), Fields(fs));
  }

  lemma {:induction false} FiveLines(first: seq<byte>, a: Named, b: Named, c: Named, d: Named, e: Named)
    ensures Head([first] + Fields([a, b, c, d, e]))
            == first + CRLF + (Field(a) + CRLF + (Field(b) + CRLF + (Field(c) + CRLF + (Field(d) + CRLF
               + (Field(e) + CRLF + CRLF)))))
  {
    HeadCons(first, Fields([a, b, c, d, e]));
    FieldFirst(a, [b, c, d, e]);
    FieldFirst(b, [c, d, e]);
    FieldFirst(c, [d, e]);
    FieldFirst(d, [e]);
    FieldFirst(e, []);
    assert [a] + [b, c, d, e] == [a, b, c, d, e] && [b] + [c, d, e] == [b, c, d, e];
    assert [c] + [d, e] == [c, d, e] && [d] + [e] == [d, e] && [e] + [] == [e];
    assert Fields([]) == [];
  }

  lemma {:induction false} ThreeLines(first: seq<byte>, a: Named, b: Named, c: Named)
    ensures Head([first] + Fields([a, b, c]))
            == first + CRLF + (Field(a) + CRLF + (Field(b) + CRLF + (Field(c) + CRLF + CRLF)))
  {
    HeadCons(first, Fields([a, b, c]));
    FieldFirst(a, [b, c]);
    FieldFirst(b, [c]);
    FieldFirst(c, []);
    assert [a] + [b, c] == [a, b, c] && [b] + [c] == [b, c] && [c] + [] == [c];
    assert Fields([]) == [];
  }

  function Line(name: string, value: seq<byte>): seq<byte> {
    Ascii(name) + Ascii(": ") + value + [13, 10]
  }

  // The request as it is printed, ...
  lemma {:induction false} RequestText(path: seq<byte>, host: seq<byte>, port: nat, key: seq<byte>)
    ensures Request(path, host, port, key)
            == Ascii("GET ") + path + Ascii(" HTTP/1.1") + [13, 10]
               + (Line("Host", host + Ascii(":") + Json.Digits(port)) + (Line("Upgrade", Ascii("websocket"))
               + (Line("Connection", Ascii("Upgrade")) + (Line("Sec-WebSocket-Key", key)
               + (Line("Sec-WebSocket-Version", Ascii("13")) + [13, 10])))))
  {
    assert Ascii(": ") == [COLON, SPACE] && Ascii(":") == [COLON];
    FiveLines(GET + path + Ascii(" HTTP/1.1"), Named(HOST, host + [COLON] + Json.Digits(port)),
              Named(UPGRADE, WEBSOCKET), Named(CONNECTION, UPGRADE), Named(KEY, key), Named(VERSION, THIRTEEN));
  }

  // ... the answer that accepts it, ...
  lemma {:induction false} ResponseText(accept: seq<byte>)
    ensures Response(accept)
            == Ascii("HTTP/1.1 101 Switching Protocols") + [13, 10]
               + (Line("Upgrade", Ascii("websocket")) + (Line("Connection", Ascii("Upgrade"))
               + (Line("Sec-WebSocket-Accept", accept) + [13, 10])))
  {
    assert Ascii(": ") == [COLON, SPACE];
    ThreeLines(STATUS, Named(UPGRADE, WEBSOCKET), Named(CONNECTION, UPGRADE), Named(ACCEPT, accept));
  }

  // ... and the three refusals.
  lemma {:induction false} RefusalTexts()
    ensures ErrorText(400, "Bad Request", []) == Ascii("HTTP/1.1 ") + Ascii("400") + Ascii(" ") + Ascii("Bad Request")
              + CRLF + Ascii("Content-Length: 0") + CRLF + Ascii("Connection: close") + CRLF + CRLF
    ensures ErrorText(426, "Upgrade Required", [Ascii("Sec-WebSocket-Version: 13")])
            == Ascii("HTTP/1.1 ") + Ascii("426") + Ascii(" ") + Ascii("Upgrade Required") + CRLF
              + Ascii("Sec-WebSocket-Version: 13") + CRLF + Ascii("Content-Length: 0") + CRLF
              + Ascii("Connection: close") + CRLF + CRLF
    ensures ErrorText(431, "Request Header Fields Too Large", [])
            == Ascii("HTTP/1.1 ") + Ascii("431") + Ascii(" ") + Ascii("Request Header Fields Too Large")
              + CRLF + Ascii("Content-Length: 0") + CRLF + Ascii("Connection: close") + CRLF + CRLF
  {
    Numerals();
    ErrorLines(400, "Bad Request", Ascii("Sec-WebSocket-Version: 13"));
    ErrorLines(426, "Upgrade Required", Ascii("Sec-WebSocket-Version: 13"));
    ErrorLines(431, "Request Header Fields Too Large", Ascii("Sec-WebSocket-Version: 13"));
    assert [SPACE] == Ascii(" ");
  }

  lemma {:induction false} ErrorLines(code: nat, reason: string, extra: seq<byte>)
    ensures var status := Ascii("HTTP/1.1 ") + Json.Digits(code) + [SPACE] + Ascii(reason);
            var last := Ascii("Content-Length: 0") + CRLF + Ascii("Connection: close") + CRLF + CRLF;
            && ErrorText(code, reason, []) == status + CRLF + last
            && ErrorText(code, reason, [extra]) == status + CRLF + extra + CRLF + last
  {
    var status := Ascii("HTTP/1.1 ") + Json.Digits(code) + [SPACE] + Ascii(reason);
    var b, c := Ascii("Content-Length: 0"), Ascii("Connection: close");
    HeadOf(status, b, c, []);
    HeadOf(status, extra, b, c);
    assert [status] + [] + [b, c] == [status, b, c] && [status] + [extra] + [b, c] == [status, extra, b, c];
  }

  // Before a whole request is there, a connection is closed when its peer has closed, refused at the
  // cap, and otherwise read on.
  lemma {:induction false} GreetsNone(rc: int, rx: seq<byte>, sinkPath: seq<byte>)
    requires rc in {-2, -1, 0, 1, 2} && (rc in {1, 2} ==> forall j: nat :: !EmptyLineAt(rx, j))
    ensures var g := Greet(rc, rx, sinkPath);
            && (g == CloseNow <==> rc in {-1, 2}) && (g == ReadMore <==> rc in {0, 1})
            && (rc == -2 ==> g.Replied? && !g.reply.open && !g.reply.sink && g.reply.rest == rx
                             && g.reply.text == ErrorText(431, "Request Header Fields Too Large", []))
  {
    FirstEmptyLine(rx);
  }

  lemma {:induction false} Answered(p: seq<byte>, more: seq<byte>, sinkPath: seq<byte>)
    requires |p| >= 4 && HeaderEnd(p + more) == Some(|p| - 4)
    ensures Answer(p + more, sinkPath) == Some(ReplyTo(ParseHandshake(p), sinkPath, more))
  {
    assert (p + more)[..|p|] == p && (p + more)[|p|..] == more;
  }

  // A whole request with these fields is answered at once, and the bytes behind it are kept: with the
  // upgrade if it is accepted, and the connection then stays open unless the peer has closed already, and
  // is handed over if it asked for the sink's path; with 426 for another version; with 400 otherwise.
  lemma {:induction false} GreetsByFields(rc: int, path: seq<byte>, more: seq<byte>, lines: seq<seq<byte>>,
                                          fs: seq<Named>, early: seq<byte>, sinkPath: seq<byte>)
    requires rc in {1, 2} && NoSpace(path) && Clean(path) && Clean(more) && SpellAll(lines, fs)
    ensures var g := Greet(rc, Head([Ascii("GET ") + path + Ascii(" ") + more] + lines) + early, sinkPath);
            && g.Replied? && g.reply.rest == early
            && match Judged(path, fs)
               case Ok(_, accept) =>
                 && g.reply.text == Response(accept)
                 && g.reply.open == (rc == 1) && g.reply.sink == (rc == 1 && UpToNul(path) == sinkPath)
               case BadVersion =>
                 && g.reply.text == ErrorText(426, "Upgrade Required", [Ascii("Sec-WebSocket-Version: 13")])
                 && !g.reply.open && !g.reply.sink
               case _ => g.reply.text == ErrorText(400, "Bad Request", []) && !g.reply.open && !g.reply.sink
  {
    var first := Ascii("GET ") + path + Ascii(" ") + more;
    FirstIsClean(path, more);
    SpelledLines(lines, fs);
    CleanFirst(first, lines);
    HeadEnds([first] + lines, early);
    Answered(Head([first] + lines), early, sinkPath);
    RequestIsJudged(path, more, lines, fs);
  }

  lemma {:induction false} GreetsOk(p: seq<byte>, more: seq<byte>, path: seq<byte>, accept: seq<byte>,
                                    sinkPath: seq<byte>, rc: int)
    requires |p| >= 4 && HeaderEnd(p + more) == Some(|p| - 4) && ParseHandshake(p) == Ok(path, accept) && rc in {1, 2}
    ensures Greet(rc, p + more, sinkPath)
            == Replied(Reply(Response(accept), rc == 1, rc == 1 && UpToNul(path) == sinkPath, more))
  {
    Answered(p, more, sinkPath);
  }

  lemma {:induction false} ServerGreets(nonce: seq<byte>, path: seq<byte>, host: seq<byte>, port: nat,
                                        sinkPath: seq<byte>, early: seq<byte>, rc: int)
    requires |nonce| == 16 && Clean(path) && NoSpace(path) && 1 <= |path| <= 255 && Clean(host)
    requires rc in {1, 2}
    ensures var key := Base64.Encode(nonce);
            Greet(rc, Request(path, host, port, key) + early, sinkPath)
            == Replied(Reply(Response(Accept(key)), rc == 1, rc == 1 && UpToNul(path) == sinkPath, early))
  {
    var key := Base64.Encode(nonce);
    KeyIsLegal(nonce);
    ServerReadsRequest(nonce, path, host, port);
    RequestEnds(path, host, port, key, early);
    GreetsOk(Request(path, host, port, key), early, path, Accept(key), sinkPath, rc);
  }

  // The two handshakes fit together. A client that asks for a path of 1 to 255 bytes, in a request that
  // bufRecv can read within its cap, is answered with an upgrade, stays open exactly when it has not
  // closed already, is then the sink exactly when it asked for the sink's path, and opens on the
  // server's answer; and both sides keep what the other sends behind its header.
  lemma {:induction false} UpgradeCompletes(nonce: seq<byte>, path: seq<byte>, host: seq<byte>, port: nat,
                                            sinkPath: seq<byte>, early: seq<byte>, later: seq<byte>,
                                            handshakeMax: nat, rc: int)
    requires |nonce| == 16 && Clean(path) && NoSpace(path) && 1 <= |path| <= 255 && Clean(host)
    requires rc in {1, 2}
    ensures var key := Base64.Encode(nonce);
            var reply := Response(Accept(key));
            && Greet(rc, Request(path, host, port, key) + early, sinkPath)
               == Replied(Reply(reply, rc == 1, rc == 1 && UpToNul(path) == sinkPath, early))
            && CheckResponse(reply + later, Accept(key), handshakeMax) == Opened(|reply|)
            && (reply + later)[|reply|..] == later
  {
    ServerGreets(nonce, path, host, port, sinkPath, early, rc);
    ClientReadsResponse(Base64.Encode(nonce), later, handshakeMax);
  }

  lemma {:induction false} HeaderEndStays(p: seq<byte>, more: seq<byte>)
    requires HeaderEnd(p).Some?
    ensures HeaderEnd(p + more) == HeaderEnd(p) && HeaderEnd(p).value + 4 <= |p|
  {
    if !EmptyLineAt(p, 0) {
      HeaderEndStays(p[1..], more);
      assert (p + more)[1..] == p[1..] + more;
    }
  }

  lemma {:induction false} NoEndYet(p: seq<byte>, k: nat)
    requires k < |p| && |p| >= 4 && HeaderEnd(p) == Some(|p| - 4)
    ensures HeaderEnd(p[..k]) == None
  {
    assert p[..k] + p[k..] == p;
    if HeaderEnd(p[..k]).Some? {
      HeaderEndStays(p[..k], p[k..]);
    }
  }

  lemma {:induction false} WaitsOnPart(p: seq<byte>, k: nat, sinkPath: seq<byte>, expected: seq<byte>,
                                       handshakeMax: nat)
    requires k < |p| && |p| >= 4 && HeaderEnd(p) == Some(|p| - 4)
    ensures Greet(1, p[..k], sinkPath) == ReadMore
    ensures k <= handshakeMax ==> CheckResponse(p[..k], expected, handshakeMax) == Incomplete
  {
    NoEndYet(p, k);
  }

  // In whatever pieces they come, both sides wait for the other's whole header: on a part of it the
  // server reads on, and so does the client until its cap.
  lemma {:induction false} HandshakesComeInParts(nonce: seq<byte>, path: seq<byte>, host: seq<byte>, port: nat,
                                                 sinkPath: seq<byte>, k: nat, handshakeMax: nat)
    requires |nonce| == 16 && Clean(path) && Clean(host)
    ensures var key := Base64.Encode(nonce);
            var request, reply := Request(path, host, port, key), Response(Accept(key));
            && (k < |request| ==> Greet(1, request[..k], sinkPath) == ReadMore)
            && (k < |reply| && k <= handshakeMax ==> CheckResponse(reply[..k], Accept(key), handshakeMax) == Incomplete)
  {
    var key := Base64.Encode(nonce);
    var request, reply := Request(path, host, port, key), Response(Accept(key));
    KeyIsLegal(nonce);
    RequestEnds(path, host, port, key, []);
    assert request + [] == request;
    if k < |request| {
      WaitsOnPart(request, k, sinkPath, [], 0);
    }
    ResponseEnds(key);
    if k < |reply| {
      WaitsOnPart(reply, k, sinkPath, Accept(key), handshakeMax);
    }
  }
}
