// Base64 as src/base64.c reads and writes it: section 4 of RFC 4648.
module Base64 {
  import opened Bytes

  // ---------------------------------------------------------------- letters

  const PADDING: byte := 61

  // The letter of a six-bit digit; 64 stands for the padding.
  function Letter(d: nat): byte
    requires d <= 64
  {
    if d < 26 then 65 + d else if d < 52 then 71 + d else if d < 62 then d - 4
    else if d == 62 then 43 else if d == 63 then 47 else PADDING
  }

  // Table 1 of RFC 4648.
  lemma {:induction false} Alphabet(d: nat)
    requires d < 64
    ensures Letter(d) == if d < 26 then ('A' as int) + d
                         else if d < 52 then ('a' as int) + d - 26
                         else if d < 62 then ('0' as int) + d - 52
                         else if d == 62 then '+' as int else '/' as int
  {
  }

  // decodeChar: -1 for what is no letter.
  function Digit(c: byte): (d: int)
    ensures -1 <= d <= 64 && (d == 64 <==> c == PADDING)
  {
    if 65 <= c <= 90 then c - 65
    else if 97 <= c <= 122 then c - 71
    else if 48 <= c <= 57 then c + 4
    else if c == 43 then 62
    else if c == 47 then 63
    else if c == PADDING then 64
    else -1
  }

  lemma {:induction false} DigitOfLetter(d: nat)
    requires d <= 64
    ensures Digit(Letter(d)) == d
  {
  }

  lemma {:induction false} LetterOfDigit(c: byte)
    requires Digit(c) >= 0
    ensures Letter(Digit(c)) == c
  {
  }

  predicate AllDigits(ds: seq<int>) {
    forall i :: 0 <= i < |ds| ==> 0 <= ds[i] <= 64
  }

  function Letters(ds: seq<int>): (s: seq<byte>)
    requires AllDigits(ds)
    ensures |s| == |ds|
  {
    seq(|ds|, i requires 0 <= i < |ds| => Letter(ds[i]))
  }

  function Digits(s: seq<byte>): (ds: seq<int>)
    ensures |ds| == |s|
  {
    seq(|s|, i requires 0 <= i < |s| => Digit(s[i]))
  }

  lemma {:induction false} DigitsOfLetters(ds: seq<int>)
    requires AllDigits(ds)
    ensures Digits(Letters(ds)) == ds
  {
    forall i | 0 <= i < |ds| ensures Digits(Letters(ds))[i] == ds[i] {
      DigitOfLetter(ds[i]);
    }
  }

  // ---------------------------------------------------------------- bytes as six-bit digits

  function EncodedLen(n: nat): nat {
    (n + 2) / 3 * 4
  }

  // Section 4: 24 bits as four digits, ...
  function Split(a: byte, b: byte, c: byte): (ds: seq<int>)
    ensures |ds| == 4 && forall i :: 0 <= i < 4 ==> 0 <= ds[i] < 64
  {
    [a / 4, a % 4 * 16 + b / 16, b % 16 * 4 + c / 64, c % 64]
  }

  // ... and what is missing at the end is padded.
  function Sextets(p: seq<byte>): (ds: seq<int>)
    ensures AllDigits(ds) && |ds| == EncodedLen(|p|)
  {
    if |p| == 0 then []
    else if |p| == 1 then [p[0] / 4, p[0] % 4 * 16, 64, 64]
    else if |p| == 2 then [p[0] / 4, p[0] % 4 * 16 + p[1] / 16, p[1] % 16 * 4, 64]
    else Split(p[0], p[1], p[2]) + Sextets(p[3..])
  }

  function Encode(p: seq<byte>): (s: seq<byte>)
    ensures |s| == EncodedLen(|p|)
  {
    Letters(Sextets(p))
  }

  lemma {:induction false} EncodedRest(p: seq<byte>)
    requires |p| >= 3
    ensures Encode(p) == Letters(Split(p[0], p[1], p[2])) + Encode(p[3..])
  {
  }

  lemma SliceBehind<T>(a: seq<T>, b: seq<T>, i: nat, j: nat)
    requires i <= j <= |b|
    ensures (a + b)[|a| + i..|a| + j] == b[i..j]
  {
  }

  // Every three bytes are four letters, wherever they stand, ...
  lemma {:induction false} EncodedAt(p: seq<byte>, i: nat)
    requires 3 * i + 3 <= |p|
    ensures |Encode(p)| >= 4 * i + 4
    ensures Encode(p)[4 * i..4 * i + 4] == Letters(Split(p[3 * i], p[3 * i + 1], p[3 * i + 2]))
  {
    EncodedRest(p);
    if i > 0 {
      EncodedAt(p[3..], i - 1);
      SliceBehind(Letters(Split(p[0], p[1], p[2])), Encode(p[3..]), 4 * i - 4, 4 * i);
    }
  }

  function LastTwo(a: byte, b: byte): (s: seq<byte>)
    ensures |s| == 4
  {
    Letters([a / 4, a % 4 * 16 + b / 16, b % 16 * 4, 64])
  }

  lemma {:induction false} TwoEncoded(p: seq<byte>)
    requires |p| == 2
    ensures Encode(p) == LastTwo(p[0], p[1])
  {
  }

  lemma {:induction false} Behind<T>(a: seq<T>, b: seq<T>, n: nat, c: seq<T>)
    requires |b| == n + |c| && b[n..] == c
    ensures (a + b)[|a| + n..] == c
  {
    assert (a + b)[|a| + n..] == b[n..];
  }

  // ... and two left over at the end are three and a padding.
  lemma {:induction false} EncodedEnd(p: seq<byte>, i: nat)
    requires |p| == 3 * i + 2
    ensures |Encode(p)| == 4 * i + 4 && Encode(p)[4 * i..] == LastTwo(p[3 * i], p[3 * i + 1])
  {
    if i == 0 {
      TwoEncoded(p);
      assert Encode(p)[0..] == Encode(p);
    } else {
      var q := p[3..];
      EncodedEnd(q, i - 1);
      assert q[3 * (i - 1)] == p[3 * i] && q[3 * (i - 1) + 1] == p[3 * i + 1];
      EncodedRest(p);
      Behind(Letters(Split(p[0], p[1], p[2])), Encode(q), 4 * (i - 1), LastTwo(p[3 * i], p[3 * i + 1]));
    }
  }

  // ---------------------------------------------------------------- and back

  // How many padding letters stand at the end; a third one is not looked for.
  function Pad(ds: seq<int>): (n: nat)
    ensures n <= 2 && n <= |ds|
  {
    if |ds| < 4 || ds[|ds| - 1] != 64 then 0 else if ds[|ds| - 2] != 64 then 1 else 2
  }

  // Whole groups of digits, the last of them padded at most twice.
  predicate Padded(ds: seq<int>) {
    ds == []
    || (|ds| >= 4 && 0 <= ds[0] < 64 && 0 <= ds[1] < 64
        && (if |ds| == 4 && ds[3] == 64 then ds[2] == 64 || 0 <= ds[2] < 64 else 0 <= ds[2] < 64 && 0 <= ds[3] < 64)
        && Padded(ds[4..]))
  }

  predicate Valid(s: seq<byte>) {
    Padded(Digits(s))
  }

  predicate IsLetter(c: byte) {
    || 'A' as int <= c <= 'Z' as int || 'a' as int <= c <= 'z' as int || '0' as int <= c <= '9' as int
    || c in {'+' as int, '/' as int}
  }

  predicate IsLetterOrPadding(c: byte) {
    IsLetter(c) || c == '=' as int
  }

  // Groups of four letters, in the last of which the fourth, or the third and the fourth, may be padding.
  ghost predicate WellPadded(s: seq<byte>) {
    && |s| % 4 == 0
    && (forall i :: 0 <= i < |s| - 2 ==> IsLetter(s[i]))
    && (s != [] ==> IsLetterOrPadding(s[|s| - 2]) && IsLetterOrPadding(s[|s| - 1]))
    && (s != [] && s[|s| - 2] == '=' as int ==> s[|s| - 1] == '=' as int)
  }

  lemma {:induction false} OneGroup(s: seq<byte>)
    requires |s| == 4
    ensures Valid(s) <==> WellPadded(s)
  {
    assert Digits(s) == [Digit(s[0]), Digit(s[1]), Digit(s[2]), Digit(s[3])];
    assert Digits(s)[4..] == [] && Padded(Digits(s)[4..]);
    assert (forall i :: 0 <= i < 2 ==> IsLetter(s[i])) <==> IsLetter(s[0]) && IsLetter(s[1]);
    assert WellPadded(s) <==>
        && IsLetter(s[0]) && IsLetter(s[1]) && IsLetterOrPadding(s[2]) && IsLetterOrPadding(s[3])
        && (s[2] == '=' as int ==> s[3] == '=' as int);
  }

  lemma {:induction false} MoreGroups(s: seq<byte>)
    requires |s| >= 8
    ensures Valid(s) <==>
              IsLetter(s[0]) && IsLetter(s[1]) && IsLetter(s[2]) && IsLetter(s[3]) && Valid(s[4..])
    ensures WellPadded(s) <==>
              IsLetter(s[0]) && IsLetter(s[1]) && IsLetter(s[2]) && IsLetter(s[3]) && WellPadded(s[4..])
  {
    var t := s[4..];
    assert Digits(s)[4..] == Digits(t);
    assert t[|t| - 2] == s[|s| - 2] && t[|t| - 1] == s[|s| - 1];
    LettersFrom(s);
  }

  // That is exactly what is decoded.
  lemma {:induction false} ValidForm(s: seq<byte>)
    ensures Valid(s) <==> WellPadded(s)
  {
    if |s| >= 8 {
      ValidForm(s[4..]);
      MoreGroups(s);
    } else if |s| == 4 {
      OneGroup(s);
    } else if s != [] {
      assert |s| > 4 ==> !Padded(Digits(s)[4..]);
    }
  }

  lemma {:induction false} LettersFrom(s: seq<byte>)
    requires |s| > 4
    ensures (forall i :: 0 <= i < |s| - 2 ==> IsLetter(s[i])) <==>
              && IsLetter(s[0]) && IsLetter(s[1]) && (|s| >= 5 ==> IsLetter(s[2])) && (|s| >= 6 ==> IsLetter(s[3]))
              && (forall i :: 0 <= i < |s[4..]| - 2 ==> IsLetter(s[4..][i]))
  {
    assert forall i :: 4 <= i < |s| ==> s[i] == s[4..][i - 4];
    assert forall i :: 0 <= i < |s| - 4 ==> s[4..][i] == s[i + 4];
  }

  function DecodedLen(s: seq<byte>): Option<nat> {
    if Valid(s) then Some(|s| / 4 * 3 - Pad(Digits(s))) else None
  }

  // Four digits as three bytes; a padded place yields none.
  function Group(c0: int, c1: int, c2: int, c3: int): (g: seq<byte>)
    requires 0 <= c0 < 64 && 0 <= c1 < 64 && 0 <= c2 <= 64 && 0 <= c3 <= 64
    ensures |g| == 1 + (if c2 != 64 then 1 else 0) + (if c3 != 64 then 1 else 0)
  {
    [c0 * 4 + c1 / 16] + (if c2 != 64 then [c1 % 16 * 16 + c2 / 4] else [])
    + (if c3 != 64 then [c2 % 4 * 64 + c3] else [])
  }

  // As 24 bits these are the same; what is missing at the end is cut off.
  lemma {:induction false} GroupBits(c0: int, c1: int, c2: int, c3: int)
    requires 0 <= c0 < 64 && 0 <= c1 < 64 && 0 <= c2 < 64 && 0 <= c3 < 64
    ensures var g := Group(c0, c1, c2, c3);
            |g| == 3 && (g[0] as int) * 65536 + (g[1] as int) * 256 + g[2] == ((c0 * 64 + c1) * 64 + c2) * 64 + c3
    ensures Group(c0, c1, c2, 64) == Group(c0, c1, c2, c3)[..2] && Group(c0, c1, 64, 64) == Group(c0, c1, c2, c3)[..1]
  {
    assert c2 / 4 < 16 && c1 / 16 < 4;
  }

  // Padding only in the second half of a group.
  predicate Groupable(ds: seq<int>) {
    ds == []
    || (|ds| >= 4 && 0 <= ds[0] < 64 && 0 <= ds[1] < 64 && 0 <= ds[2] <= 64 && 0 <= ds[3] <= 64 && Groupable(ds[4..]))
  }

  function FirstGroup(ds: seq<int>): seq<byte>
    requires |ds| >= 4 && Groupable(ds)
  {
    Group(ds[0], ds[1], ds[2], ds[3])
  }

  function Groups(ds: seq<int>): seq<byte>
    requires Groupable(ds)
  {
    if ds == [] then [] else FirstGroup(ds) + Groups(ds[4..])
  }

  lemma {:induction false} PaddedIsGroupable(ds: seq<int>)
    requires Padded(ds)
    ensures Groupable(ds)
  {
    if |ds| > 4 {
      PaddedIsGroupable(ds[4..]);
    }
  }

  function Decode(s: seq<byte>): Option<seq<byte>> {
    if !Valid(s) then None
    else
      PaddedIsGroupable(Digits(s));
      Some(Groups(Digits(s)))
  }

  // ---------------------------------------------------------------- round trip

  lemma {:induction false} GroupBack(a: byte, b: byte, c: byte)
    ensures Group(a / 4, a % 4 * 16 + b / 16, b % 16 * 4 + c / 64, c % 64) == [a, b, c]
    ensures Group(a / 4, a % 4 * 16 + b / 16, b % 16 * 4, 64) == [a, b]
    ensures Group(a / 4, a % 4 * 16, 64, 64) == [a]
  {
    Divided(a % 4, b / 16, 16);
    Divided(a % 4, 0, 16);
    Divided(b % 16, c / 64, 4);
    Divided(b % 16, 0, 4);
  }

  lemma {:induction false} PaddedCons(q: seq<int>, t: seq<int>)
    requires |q| == 4 && 0 <= q[0] < 64 && 0 <= q[1] < 64 && 0 <= q[2] < 64 && 0 <= q[3] < 64 && Padded(t)
    ensures Padded(q + t)
  {
    assert (q + t)[4..] == t;
  }

  lemma {:induction false} GroupsCons(q: seq<int>, t: seq<int>)
    requires |q| == 4 && Groupable(q) && Groupable(t) && Groupable(q + t)
    ensures Groups(q + t) == FirstGroup(q) + Groups(t)
  {
    assert (q + t)[4..] == t && FirstGroup(q + t) == FirstGroup(q);
  }

  lemma {:induction false} LastGroup(q: seq<int>)
    requires |q| == 4 && Groupable(q)
    ensures Groups(q) == FirstGroup(q)
  {
    assert Groups(q[4..]) == [];
  }

  // The digits ds stand for the bytes p.
  ghost predicate StandsFor(ds: seq<int>, p: seq<byte>) {
    Padded(ds) && Groupable(ds) && Groups(ds) == p
  }

  lemma {:induction false} LongStandsFor(q: seq<int>, t: seq<int>, b: seq<byte>, p: seq<byte>)
    requires |q| == 4 && 0 <= q[0] < 64 && 0 <= q[1] < 64 && 0 <= q[2] < 64 && 0 <= q[3] < 64 && FirstGroup(q) == b
    requires StandsFor(t, p)
    ensures StandsFor(q + t, b + p)
  {
    PaddedCons(q, t);
    PaddedIsGroupable(q + t);
    GroupsCons(q, t);
  }

  lemma {:induction false} ShortStandsFor(q: seq<int>, b: seq<byte>)
    requires |q| == 4 && 0 <= q[0] < 64 && 0 <= q[1] < 64 && q[3] == 64 && (q[2] == 64 || 0 <= q[2] < 64)
    requires Groupable(q) && FirstGroup(q) == b
    ensures StandsFor(q, b)
  {
    LastGroup(q);
  }

  lemma {:induction false} OneStands(a: byte)
    ensures StandsFor([a / 4, a % 4 * 16, 64, 64], [a])
  {
    GroupBack(a, 0, 0);
    ShortStandsFor([a / 4, a % 4 * 16, 64, 64], [a]);
  }

  lemma {:induction false} TwoStand(a: byte, b: byte)
    ensures StandsFor([a / 4, a % 4 * 16 + b / 16, b % 16 * 4, 64], [a, b])
  {
    GroupBack(a, b, 0);
    ShortStandsFor([a / 4, a % 4 * 16 + b / 16, b % 16 * 4, 64], [a, b]);
  }

  lemma {:induction false} ThreeStand(a: byte, b: byte, c: byte, t: seq<int>, p: seq<byte>)
    requires StandsFor(t, p)
    ensures StandsFor(Split(a, b, c) + t, [a, b, c] + p)
  {
    GroupBack(a, b, c);
    LongStandsFor(Split(a, b, c), t, [a, b, c], p);
  }

  lemma {:induction false} SextetsBack(p: seq<byte>)
    ensures StandsFor(Sextets(p), p)
  {
    if |p| == 1 {
      OneStands(p[0]);
      assert p == [p[0]];
    } else if |p| == 2 {
      TwoStand(p[0], p[1]);
      assert p == [p[0], p[1]];
    } else if |p| >= 3 {
      SextetsBack(p[3..]);
      ThreeStand(p[0], p[1], p[2], Sextets(p[3..]), p[3..]);
      assert p == [p[0], p[1], p[2]] + p[3..];
    }
  }

  lemma {:induction false} LettersStandFor(ds: seq<int>, p: seq<byte>)
    requires StandsFor(ds, p) && AllDigits(ds)
    ensures Decode(Letters(ds)) == Some(p)
  {
    DigitsOfLetters(ds);
  }

  // Decoding an encoding gives back the bytes, for every byte sequence.
  lemma {:induction false} RoundTrip(p: seq<byte>)
    ensures Decode(Encode(p)) == Some(p)
  {
    SextetsBack(p);
    LettersStandFor(Sextets(p), p);
  }

  lemma {:induction false} GroupsLength(ds: seq<int>)
    requires Padded(ds)
    ensures |ds| % 4 == 0 && Groupable(ds) && 4 * |Groups(ds)| == 3 * |ds| - 4 * Pad(ds)
  {
    PaddedIsGroupable(ds);
    if |ds| > 4 {
      GroupsLength(ds[4..]);
      assert Pad(ds[4..]) == Pad(ds);
    } else if |ds| == 4 {
      LastGroup(ds);
    }
  }

  // The length computed beforehand is the length of what decoding yields, and there is one exactly
  // when the text decodes.
  lemma {:induction false} DecodedLenIsLength(s: seq<byte>)
    ensures DecodedLen(s) == match Decode(s) case None => None case Some(p) => Some(|p|)
  {
    if Valid(s) {
      GroupsLength(Digits(s));
    }
  }

  // ---------------------------------------------------------------- the loops

  // The source's shifts and masks on a 24-bit group, as arithmetic.
  lemma {:induction false} GroupDigits(a: nat, b: nat, c: nat)
    requires a < 256 && b < 256 && c < 256
    ensures var v := a * 65536 + b * 256 + c;
            && v / 262144 % 64 == a / 4 && v / 4096 % 64 == a % 4 * 16 + b / 16
            && v / 64 % 64 == b % 16 * 4 + c / 64 && v % 64 == c % 64
  {
    Divided(a / 4, a % 4 * 65536 + b * 256 + c, 262144);
    Divided(a * 16 + b / 16, b % 16 * 256 + c, 4096);
    Divided(a * 1024 + b * 4 + c / 64, c % 64, 64);
    Divided(a / 4, a % 4 * 16 + b / 16, 64);
    Divided(a * 16 + b / 16, b % 16 * 4 + c / 64, 64);
  }

  lemma {:induction false} GroupBytes(c0: nat, c1: nat, c2: nat, c3: nat)
    requires c0 < 64 && c1 < 64 && c2 < 64 && c3 < 64
    ensures var v := c0 * 262144 + c1 * 4096 + c2 * 64 + c3;
            && v / 65536 % 256 == c0 * 4 + c1 / 16
            && v / 256 % 256 == c1 % 16 * 16 + c2 / 4
            && v % 256 == c2 % 4 * 64 + c3
  {
    Divided(c0 * 4 + c1 / 16, c1 % 16 * 4096 + c2 * 64 + c3, 65536);
    Divided(c0 * 1024 + c1 * 16 + c2 / 4, c2 % 4 * 64 + c3, 256);
    Divided(c0 * 4 + c1 / 16, c1 % 16 * 16 + c2 / 4, 256);
  }

  // c & 0x3F on a digit or the padding
  function LowSix(c: int): (d: int)
    requires 0 <= c <= 64
    ensures d == if c == 64 then 0 else c
  {
    c % 64
  }

  method Put4(out: array<byte>, o: nat, ds: seq<int>)
    requires |ds| == 4 && AllDigits(ds) && o + 4 <= out.Length
    modifies out
    ensures out[..] == Overwritten(old(out[..]), o, Letters(ds))
  {
    out[o], out[o + 1], out[o + 2], out[o + 3] := Letter(ds[0]), Letter(ds[1]), Letter(ds[2]), Letter(ds[3]);
  }

  // Three bytes as the source puts them together and takes them apart again.
  method SplitGroup(a: byte, b: byte, c: byte) returns (ds: seq<int>)
    ensures ds == Split(a, b, c)
  {
    var v := (a as int) * 65536 + (b as int) * 256 + c;
    GroupDigits(a, b, c);
    ds := [v / 262144 % 64, v / 4096 % 64, v / 64 % 64, v % 64];
  }

  // Four digits as the source joins them: padded places count as zero, and yield no byte.
  method JoinGroup(c0: int, c1: int, c2: int, c3: int) returns (g: seq<byte>)
    requires 0 <= c0 < 64 && 0 <= c1 < 64 && 0 <= c2 <= 64 && 0 <= c3 <= 64
    ensures g == Group(c0, c1, c2, c3)
  {
    var v := c0 * 262144 + c1 * 4096 + LowSix(c2) * 64 + LowSix(c3);
    GroupBytes(c0, c1, LowSix(c2), LowSix(c3));
    g := [v / 65536 % 256];
    if c2 != 64 {
      g := g + [v / 256 % 256];
    }
    if c3 != 64 {
      g := g + [v % 256];
    }
  }

  lemma {:induction false} LettersConcat(a: seq<int>, b: seq<int>)
    requires AllDigits(a) && AllDigits(b)
    ensures AllDigits(a + b) && Letters(a + b) == Letters(a) + Letters(b)
  {
  }

  // The digits of p are those written so far and those of p from i on.
  ghost predicate EncodedTo(p: seq<byte>, i: nat, done: seq<int>) {
    i <= |p| && AllDigits(done) && done + Sextets(p[i..]) == Sextets(p)
  }

  lemma {:induction false} EncodedFurther(p: seq<byte>, i: nat, done: seq<int>)
    requires EncodedTo(p, i, done) && i + 3 <= |p|
    ensures EncodedTo(p, i + 3, done + Split(p[i], p[i + 1], p[i + 2])) && |done| + 4 <= EncodedLen(|p|)
  {
    var t := p[i..];
    assert t[0] == p[i] && t[1] == p[i + 1] && t[2] == p[i + 2] && t[3..] == p[i + 3..];
    Assoc(done, Split(p[i], p[i + 1], p[i + 2]), Sextets(p[i + 3..]));
  }

  lemma {:induction false} Written(was: seq<byte>, done: seq<int>, ds: seq<int>)
    requires AllDigits(done) && AllDigits(ds) && |done| + |ds| <= |was|
    ensures AllDigits(done + ds)
    ensures Overwritten(Overwritten(was, 0, Letters(done)), |done|, Letters(ds))
            == Overwritten(was, 0, Letters(done + ds))
  {
    LettersConcat(done, ds);
    OverwrittenTwice(was, 0, Letters(done), Letters(ds));
  }

  method EncodeStep(p: seq<byte>, i: nat, out: array<byte>, o: nat, ghost was: seq<byte>, ghost done: seq<int>)
    returns (ghost done': seq<int>)
    requires EncodedTo(p, i, done) && i + 3 <= |p| && o == |done| && |was| == out.Length > EncodedLen(|p|)
    requires out[..] == Overwritten(was, 0, Letters(done))
    modifies out
    ensures EncodedTo(p, i + 3, done') && |done'| == o + 4 && |done'| <= |was|
    ensures out[..] == Overwritten(was, 0, Letters(done'))
  {
    EncodedFurther(p, i, done);
    var ds := SplitGroup(p[i], p[i + 1], p[i + 2]);
    Written(was, done, ds);
    Put4(out, o, ds);
    done' := done + ds;
  }

  // base64Encode: whole groups, ...
  method EncodeGroups(p: seq<byte>, out: array<byte>) returns (o: nat, i: nat, ghost done: seq<int>)
    requires out.Length > EncodedLen(|p|)
    modifies out
    ensures EncodedTo(p, i, done) && |p| < i + 3 && o == |done|
    ensures out[..] == Overwritten(old(out[..]), 0, Letters(done))
  {
    ghost var was := out[..];
    assert p[0..] == p;
    o, i, done := 0, 0, [];
    while i + 3 <= |p|
      invariant EncodedTo(p, i, done) && o == |done|
      invariant out[..] == Overwritten(was, 0, Letters(done))
    {
      done := EncodeStep(p, i, out, o, was, done);
      o, i := o + 4, i + 3;
    }
  }

  // ... the rest, ...
  method EncodeLast(p: seq<byte>, i: nat, out: array<byte>, o: nat) returns (o': nat)
    requires i <= |p| < i + 3 && out.Length >= o + |Sextets(p[i..])|
    modifies out
    ensures o' == o + |Sextets(p[i..])| && out[..] == Overwritten(old(out[..]), o, Letters(Sextets(p[i..])))
  {
    o' := o;
    var rem := |p| - i;
    if rem == 1 {
      var ds := SplitGroup(p[i], 0, 0);
      assert Sextets(p[i..]) == [ds[0], ds[1], 64, 64];
      Put4(out, o, [ds[0], ds[1], 64, 64]);
      o' := o + 4;
    } else if rem == 2 {
      var ds := SplitGroup(p[i], p[i + 1], 0);
      assert Sextets(p[i..]) == [ds[0], ds[1], ds[2], 64];
      Put4(out, o, [ds[0], ds[1], ds[2], 64]);
      o' := o + 4;
    } else {
      assert Sextets(p[i..]) == [] && Letters([]) == [];
    }
  }

  // ... and a terminating NUL.
  method EncodeInto(p: seq<byte>, out: array<byte>) returns (o: nat)
    requires out.Length > EncodedLen(|p|)
    modifies out
    ensures o == EncodedLen(|p|) && out[..] == Overwritten(old(out[..]), 0, Encode(p) + [0])
  {
    var i;
    ghost var was, done := out[..], [];
    o, i, done := EncodeGroups(p, out);
    Written(was, done, Sextets(p[i..]));
    o := EncodeLast(p, i, out, o);
    Terminated(was, Encode(p));
    out[o] := 0;
  }

  lemma {:induction false} Terminated(was: seq<byte>, e: seq<byte>)
    requires |e| < |was|
    ensures Overwritten(was, 0, e)[|e| := 0] == Overwritten(was, 0, e + [0])
  {
  }

  // What checkedLen looks at: the padding at the end, then every letter before it.
  lemma {:induction false} PaddedByIndex(ds: seq<int>)
    ensures Padded(ds) <==> |ds| % 4 == 0 && forall i :: 0 <= i < |ds| - Pad(ds) ==> 0 <= ds[i] < 64
  {
    if |ds| > 4 {
      PaddedByIndex(ds[4..]);
      assert Pad(ds[4..]) == Pad(ds) || |ds| < 8;
      assert forall i :: 0 <= i < |ds| - 4 ==> ds[4..][i] == ds[i + 4];
    }
  }

  // checkedLen
  method CheckedLen(s: seq<byte>) returns (len: int)
    ensures len == match DecodedLen(s) case Some(n) => n as int case None => -1
  {
    ghost var ds := Digits(s);
    PaddedByIndex(ds);
    if |s| == 0 {
      return 0;
    }
    if |s| % 4 != 0 {
      return -1;
    }
    var pad := 0;
    if s[|s| - 1] == PADDING {
      pad := 1;
    }
    if pad == 1 && s[|s| - 2] == PADDING {
      pad := 2;
    }
    assert pad == Pad(ds) by {
      assert ds[|s| - 1] == Digit(s[|s| - 1]) && ds[|s| - 2] == Digit(s[|s| - 2]);
    }
    for i := 0 to |s| - pad
      invariant forall k :: 0 <= k < i ==> 0 <= ds[k] < 64
    {
      var c := Digit(s[i]);
      assert ds[i] == c;
      if c < 0 || c == 64 {
        return -1;
      }
    }
    // the letters left are the padding just counted, so the source's second loop finds nothing
    len := |s| / 4 * 3 - pad;
  }

  // What is decoded of s are the bytes so far and the groups from i on.
  ghost predicate DecodedTo(s: seq<byte>, i: nat, done: seq<byte>, all: seq<byte>) {
    && i <= |s| && Groupable(Digits(s[i..])) && done + Groups(Digits(s[i..])) == all
  }

  lemma {:induction false} DecodedFurther(s: seq<byte>, i: nat, done: seq<byte>, all: seq<byte>)
    requires DecodedTo(s, i, done, all) && i < |s|
    ensures i + 4 <= |s| && 0 <= Digit(s[i]) < 64 && 0 <= Digit(s[i + 1]) < 64 && 0 <= Digit(s[i + 2])
            && 0 <= Digit(s[i + 3])
    ensures var g := Group(Digit(s[i]), Digit(s[i + 1]), Digit(s[i + 2]), Digit(s[i + 3]));
            DecodedTo(s, i + 4, done + g, all) && |done| + |g| <= |all|
  {
    var ds := Digits(s[i..]);
    assert ds[0] == Digit(s[i]) && ds[1] == Digit(s[i + 1]) && ds[2] == Digit(s[i + 2]) && ds[3] == Digit(s[i + 3]);
    assert ds[4..] == Digits(s[i + 4..]);
    Assoc(done, FirstGroup(ds), Groups(ds[4..]));
  }

  method DecodeStep(s: seq<byte>, i: nat, out: array<byte>, o: nat, ghost was: seq<byte>, ghost done: seq<byte>,
                    ghost all: seq<byte>)
    returns (o': nat, ghost done': seq<byte>)
    requires DecodedTo(s, i, done, all) && i < |s| && o == |done| && |all| <= |was| == out.Length
    requires out[..] == Overwritten(was, 0, done)
    modifies out
    ensures DecodedTo(s, i + 4, done', all) && o' == |done'| <= |was|
    ensures out[..] == Overwritten(was, 0, done')
  {
    DecodedFurther(s, i, done, all);
    var g := JoinGroup(Digit(s[i]), Digit(s[i + 1]), Digit(s[i + 2]), Digit(s[i + 3]));
    OverwrittenTwice(was, 0, done, g);
    CopyInto(out, o, g);
    o', done' := o + |g|, done + g;
  }

  // base64Decode
  method DecodeInto(s: seq<byte>, out: array<byte>) returns (len: int)
    requires DecodedLen(s).Some? ==> out.Length >= DecodedLen(s).value
    modifies out
    ensures match Decode(s)
            case None => len == -1 && out[..] == old(out[..])
            case Some(p) => len == |p| <= out.Length && out[..] == Overwritten(old(out[..]), 0, p)
  {
    len := CheckedLen(s);
    DecodedLenIsLength(s);
    if len < 0 {
      return -1;
    }
    PaddedIsGroupable(Digits(s));
    ghost var was, done, all := out[..], [], Groups(Digits(s));
    var o, i := 0, 0;
    assert s[0..] == s && [] + all == all;
    while i < |s|
      invariant DecodedTo(s, i, done, all)
      invariant o == |done| <= |was|
      invariant out[..] == Overwritten(was, 0, done)
    {
      o, done := DecodeStep(s, i, out, o, was, done, all);
      i := i + 4;
    }
    assert done + [] == done;
  }
}
