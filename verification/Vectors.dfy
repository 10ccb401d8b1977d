// Published examples, worked out round by round: the digest of section 7.3 of RFC 3174, and the accept
// key of section 1.3 of RFC 6455, whose text takes two blocks.
module Vectors {
  import opened Bytes
  import opened Sha1
  import Base64
  import Http

  // ---------------------------------------------------------------- SHA-1, round by round

  lemma {:induction false} Next(h: Hash, w: seq<word>, t: nat, x: Hash) returns (y: Hash)
    requires t < |w| && x == Rounds(h, w[..t])
    ensures y == Round(x, t, w[t]) == Rounds(h, w[..t + 1])
  {
    assert w[..t + 1][..t] == w[..t];
    y := Round(x, t, w[t]);
  }

  // What remains to be shown of a block: its words.
  lemma {:induction false} BlockOf(h: Hash, block: seq<byte>, r: Hash)
    requires |block| == 64 && Rounds(h, Schedule(FirstWords(block))[..80]) == r
    ensures Block(h, block) == h.Plus(r)
  {
    assert Schedule(FirstWords(block))[..80] == Schedule(FirstWords(block));
  }

  // Eighty rounds on the block of "abc", ...
  lemma {:induction false} AbcBegins(h: Hash, m: seq<word>)
    requires |m| == 16
    requires h == Hash(0x67452301, 0xEFCDAB89, 0x98BADCFE, 0x10325476, 0xC3D2E1F0)
    requires m[0] == 0x61626380 && m[1] == 0x00000000 && m[2] == 0x00000000 && m[3] == 0x00000000
    requires m[4] == 0x00000000 && m[5] == 0x00000000 && m[6] == 0x00000000 && m[7] == 0x00000000
    requires m[8] == 0x00000000 && m[9] == 0x00000000 && m[10] == 0x00000000 && m[11] == 0x00000000
    requires m[12] == 0x00000000 && m[13] == 0x00000000 && m[14] == 0x00000000 && m[15] == 0x00000018
    ensures Rounds(h, Schedule(m)[..40])
         == Hash(0x32DE1CBA, 0x4C986405, 0xF718E5CF, 0x03D447F6, 0xF72EEC32)
  {
    var w := Schedule(m);
    assert Word(m, 16) == 0xC2C4C700; assert Word(m, 17) == 0x00000000;
    assert Word(m, 18) == 0x00000030; assert Word(m, 19) == 0x85898E01;
    assert Word(m, 20) == 0x00000000; assert Word(m, 21) == 0x00000060;
    assert Word(m, 22) == 0x0B131C03; assert Word(m, 23) == 0x00000030;
    assert Word(m, 24) == 0x85898EC1; assert Word(m, 25) == 0x16263806;
    assert Word(m, 26) == 0x00000000; assert Word(m, 27) == 0x00000180;
    assert Word(m, 28) == 0x2C4C700C; assert Word(m, 29) == 0x000000F0;
    assert Word(m, 30) == 0x93AFB507; assert Word(m, 31) == 0x5898E048;
    assert Word(m, 32) == 0x8E9A9202; assert Word(m, 33) == 0x00000600;
    assert Word(m, 34) == 0xB131C0F0; assert Word(m, 35) == 0x16263BC6;
    assert Word(m, 36) == 0x4EBED41E; assert Word(m, 37) == 0x626380A1;
    assert Word(m, 38) == 0x16263806; assert Word(m, 39) == 0x000018C0;
    assert w[..0] == [];
    var x := h;
    x := Next(h, w, 0, x); x := Next(h, w, 1, x); x := Next(h, w, 2, x); x := Next(h, w, 3, x);
    x := Next(h, w, 4, x); x := Next(h, w, 5, x); x := Next(h, w, 6, x); x := Next(h, w, 7, x);
    x := Next(h, w, 8, x); x := Next(h, w, 9, x); x := Next(h, w, 10, x); x := Next(h, w, 11, x);
    x := Next(h, w, 12, x); x := Next(h, w, 13, x); x := Next(h, w, 14, x); x := Next(h, w, 15, x);
    x := Next(h, w, 16, x); x := Next(h, w, 17, x); x := Next(h, w, 18, x); x := Next(h, w, 19, x);
    x := Next(h, w, 20, x); x := Next(h, w, 21, x); x := Next(h, w, 22, x); x := Next(h, w, 23, x);
    x := Next(h, w, 24, x); x := Next(h, w, 25, x); x := Next(h, w, 26, x); x := Next(h, w, 27, x);
    x := Next(h, w, 28, x); x := Next(h, w, 29, x); x := Next(h, w, 30, x); x := Next(h, w, 31, x);
    x := Next(h, w, 32, x); x := Next(h, w, 33, x); x := Next(h, w, 34, x); x := Next(h, w, 35, x);
    x := Next(h, w, 36, x); x := Next(h, w, 37, x); x := Next(h, w, 38, x); x := Next(h, w, 39, x);
  }

  lemma {:induction false} AbcRounds(h: Hash, m: seq<word>)
    requires |m| == 16
    requires h == Hash(0x67452301, 0xEFCDAB89, 0x98BADCFE, 0x10325476, 0xC3D2E1F0)
    requires m[0] == 0x61626380 && m[1] == 0x00000000 && m[2] == 0x00000000 && m[3] == 0x00000000
    requires m[4] == 0x00000000 && m[5] == 0x00000000 && m[6] == 0x00000000 && m[7] == 0x00000000
    requires m[8] == 0x00000000 && m[9] == 0x00000000 && m[10] == 0x00000000 && m[11] == 0x00000000
    requires m[12] == 0x00000000 && m[13] == 0x00000000 && m[14] == 0x00000000 && m[15] == 0x00000018
    ensures Rounds(h, Schedule(m)[..80])
         == Hash(0x42541B35, 0x5738D5E1, 0x21834873, 0x681E6DF6, 0xD8FDF6AD)
  {
    var w := Schedule(m);
    assert Word(m, 16) == 0xC2C4C700; assert Word(m, 17) == 0x00000000;
    assert Word(m, 18) == 0x00000030; assert Word(m, 19) == 0x85898E01;
    assert Word(m, 20) == 0x00000000; assert Word(m, 21) == 0x00000060;
    assert Word(m, 22) == 0x0B131C03; assert Word(m, 23) == 0x00000030;
    assert Word(m, 24) == 0x85898EC1; assert Word(m, 25) == 0x16263806;
    assert Word(m, 26) == 0x00000000; assert Word(m, 27) == 0x00000180;
    assert Word(m, 28) == 0x2C4C700C; assert Word(m, 29) == 0x000000F0;
    assert Word(m, 30) == 0x93AFB507; assert Word(m, 31) == 0x5898E048;
    assert Word(m, 32) == 0x8E9A9202; assert Word(m, 33) == 0x00000600;
    assert Word(m, 34) == 0xB131C0F0; assert Word(m, 35) == 0x16263BC6;
    assert Word(m, 36) == 0x4EBED41E; assert Word(m, 37) == 0x626380A1;
    assert Word(m, 38) == 0x16263806; assert Word(m, 39) == 0x000018C0;
    assert Word(m, 40) == 0xD2E138C4; assert Word(m, 41) == 0x00000F00;
    assert Word(m, 42) == 0x3AFB5079; assert Word(m, 43) == 0x898E04E5;
    assert Word(m, 44) == 0xE2BA3C2B; assert Word(m, 45) == 0x000060C0;
    assert Word(m, 46) == 0x053A37CD; assert Word(m, 47) == 0x74458547;
    assert Word(m, 48) == 0xDA9415ED; assert Word(m, 49) == 0x26380A16;
    assert Word(m, 50) == 0x626383A1; assert Word(m, 51) == 0x4EBF54DE;
    assert Word(m, 52) == 0x3835B44B; assert Word(m, 53) == 0x0000F600;
    assert Word(m, 54) == 0x1E84C7A3; assert Word(m, 55) == 0x98E04D98;
    assert Word(m, 56) == 0x651D16A0; assert Word(m, 57) == 0x62658CA1;
    assert Word(m, 58) == 0x458544D6; assert Word(m, 59) == 0x44584CB7;
    assert Word(m, 60) == 0x7BA06619; assert Word(m, 61) == 0x6380AEA2;
    assert Word(m, 62) == 0x0AE55269; assert Word(m, 63) == 0x627B49A1;
    assert Word(m, 64) == 0x7CD45C9D; assert Word(m, 65) == 0x000F0000;
    assert Word(m, 66) == 0xFB50753A; assert Word(m, 67) == 0xEC6765E8;
    assert Word(m, 68) == 0xBA3C2BE2; assert Word(m, 69) == 0x0060C000;
    assert Word(m, 70) == 0x3A37CD05; assert Word(m, 71) == 0x458546F4;
    assert Word(m, 72) == 0xB8599DD6; assert Word(m, 73) == 0x380A1A26;
    assert Word(m, 74) == 0x01E02203; assert Word(m, 75) == 0xE7CC3456;
    assert Word(m, 76) == 0xE6E60B69; assert Word(m, 77) == 0x00F60A00;
    assert Word(m, 78) == 0x5795EF4F; assert Word(m, 79) == 0x822E0879;
    AbcBegins(h, m);
    var x := Rounds(h, w[..40]);
    x := Next(h, w, 40, x); x := Next(h, w, 41, x); x := Next(h, w, 42, x); x := Next(h, w, 43, x);
    x := Next(h, w, 44, x); x := Next(h, w, 45, x); x := Next(h, w, 46, x); x := Next(h, w, 47, x);
    x := Next(h, w, 48, x); x := Next(h, w, 49, x); x := Next(h, w, 50, x); x := Next(h, w, 51, x);
    x := Next(h, w, 52, x); x := Next(h, w, 53, x); x := Next(h, w, 54, x); x := Next(h, w, 55, x);
    x := Next(h, w, 56, x); x := Next(h, w, 57, x); x := Next(h, w, 58, x); x := Next(h, w, 59, x);
    x := Next(h, w, 60, x); x := Next(h, w, 61, x); x := Next(h, w, 62, x); x := Next(h, w, 63, x);
    x := Next(h, w, 64, x); x := Next(h, w, 65, x); x := Next(h, w, 66, x); x := Next(h, w, 67, x);
    x := Next(h, w, 68, x); x := Next(h, w, 69, x); x := Next(h, w, 70, x); x := Next(h, w, 71, x);
    x := Next(h, w, 72, x); x := Next(h, w, 73, x); x := Next(h, w, 74, x); x := Next(h, w, 75, x);
    x := Next(h, w, 76, x); x := Next(h, w, 77, x); x := Next(h, w, 78, x); x := Next(h, w, 79, x);
  }

  // ... on the first block of the sample key with the magic text behind it, ...
  lemma {:induction false} KeyBegins(h: Hash, m: seq<word>)
    requires |m| == 16
    requires h == Hash(0x67452301, 0xEFCDAB89, 0x98BADCFE, 0x10325476, 0xC3D2E1F0)
    requires m[0] == 0x6447686C && m[1] == 0x49484E68 && m[2] == 0x62584273 && m[3] == 0x5A534275
    requires m[4] == 0x6232356A && m[5] == 0x5A513D3D && m[6] == 0x32353845 && m[7] == 0x41464135
    requires m[8] == 0x2D453931 && m[9] == 0x342D3437 && m[10] == 0x44412D39 && m[11] == 0x3543412D
    requires m[12] == 0x43354142 && m[13] == 0x30444338 && m[14] == 0x35423131 && m[15] == 0x80000000
    ensures Rounds(h, Schedule(m)[..40])
         == Hash(0x2BA2C83E, 0xD0869081, 0x1A1D8209, 0xD3334889, 0x2779E4F2)
  {
    var w := Schedule(m);
    assert Word(m, 16) == 0x363CA02C; assert Word(m, 17) == 0x24E81236;
    assert Word(m, 18) == 0x8856B441; assert Word(m, 19) == 0x06FB3C92;
    assert Word(m, 20) == 0x6FB4BCB6; assert Word(m, 21) == 0x460B16E3;
    assert Word(m, 22) == 0x599219AE; assert Word(m, 23) == 0x35BF9369;
    assert Word(m, 24) == 0x3267458E; assert Word(m, 25) == 0xF828FD04;
    assert Word(m, 26) == 0x753A96A7; assert Word(m, 27) == 0x6336F612;
    assert Word(m, 28) == 0xC3D66383; assert Word(m, 29) == 0x06EB86F9;
    assert Word(m, 30) == 0x73B4FD42; assert Word(m, 31) == 0xA503C5B8;
    assert Word(m, 32) == 0x15CDAE35; assert Word(m, 33) == 0x531E5DC5;
    assert Word(m, 34) == 0x6FB6B7D0; assert Word(m, 35) == 0x6C16E4AC;
    assert Word(m, 36) == 0x4DDD36BD; assert Word(m, 37) == 0x35D36946;
    assert Word(m, 38) == 0xE8AE8B9C; assert Word(m, 39) == 0x4A933AD0;
    assert w[..0] == [];
    var x := h;
    x := Next(h, w, 0, x); x := Next(h, w, 1, x); x := Next(h, w, 2, x); x := Next(h, w, 3, x);
    x := Next(h, w, 4, x); x := Next(h, w, 5, x); x := Next(h, w, 6, x); x := Next(h, w, 7, x);
    x := Next(h, w, 8, x); x := Next(h, w, 9, x); x := Next(h, w, 10, x); x := Next(h, w, 11, x);
    x := Next(h, w, 12, x); x := Next(h, w, 13, x); x := Next(h, w, 14, x); x := Next(h, w, 15, x);
    x := Next(h, w, 16, x); x := Next(h, w, 17, x); x := Next(h, w, 18, x); x := Next(h, w, 19, x);
    x := Next(h, w, 20, x); x := Next(h, w, 21, x); x := Next(h, w, 22, x); x := Next(h, w, 23, x);
    x := Next(h, w, 24, x); x := Next(h, w, 25, x); x := Next(h, w, 26, x); x := Next(h, w, 27, x);
    x := Next(h, w, 28, x); x := Next(h, w, 29, x); x := Next(h, w, 30, x); x := Next(h, w, 31, x);
    x := Next(h, w, 32, x); x := Next(h, w, 33, x); x := Next(h, w, 34, x); x := Next(h, w, 35, x);
    x := Next(h, w, 36, x); x := Next(h, w, 37, x); x := Next(h, w, 38, x); x := Next(h, w, 39, x);
  }

  lemma {:induction false} KeyRounds(h: Hash, m: seq<word>)
    requires |m| == 16
    requires h == Hash(0x67452301, 0xEFCDAB89, 0x98BADCFE, 0x10325476, 0xC3D2E1F0)
    requires m[0] == 0x6447686C && m[1] == 0x49484E68 && m[2] == 0x62584273 && m[3] == 0x5A534275
    requires m[4] == 0x6232356A && m[5] == 0x5A513D3D && m[6] == 0x32353845 && m[7] == 0x41464135
    requires m[8] == 0x2D453931 && m[9] == 0x342D3437 && m[10] == 0x44412D39 && m[11] == 0x3543412D
    requires m[12] == 0x43354142 && m[13] == 0x30444338 && m[14] == 0x35423131 && m[15] == 0x80000000
    ensures Rounds(h, Schedule(m)[..80])
         == Hash(0xF48A5426, 0x835995E1, 0x25C11EFB, 0x4A45C402, 0x9A73C2F2)
  {
    var w := Schedule(m);
    assert Word(m, 16) == 0x363CA02C; assert Word(m, 17) == 0x24E81236;
    assert Word(m, 18) == 0x8856B441; assert Word(m, 19) == 0x06FB3C92;
    assert Word(m, 20) == 0x6FB4BCB6; assert Word(m, 21) == 0x460B16E3;
    assert Word(m, 22) == 0x599219AE; assert Word(m, 23) == 0x35BF9369;
    assert Word(m, 24) == 0x3267458E; assert Word(m, 25) == 0xF828FD04;
    assert Word(m, 26) == 0x753A96A7; assert Word(m, 27) == 0x6336F612;
    assert Word(m, 28) == 0xC3D66383; assert Word(m, 29) == 0x06EB86F9;
    assert Word(m, 30) == 0x73B4FD42; assert Word(m, 31) == 0xA503C5B8;
    assert Word(m, 32) == 0x15CDAE35; assert Word(m, 33) == 0x531E5DC5;
    assert Word(m, 34) == 0x6FB6B7D0; assert Word(m, 35) == 0x6C16E4AC;
    assert Word(m, 36) == 0x4DDD36BD; assert Word(m, 37) == 0x35D36946;
    assert Word(m, 38) == 0xE8AE8B9C; assert Word(m, 39) == 0x4A933AD0;
    assert Word(m, 40) == 0xCE8628B4; assert Word(m, 41) == 0x415DBA9E;
    assert Word(m, 42) == 0x2792F049; assert Word(m, 43) == 0x8E9B79E7;
    assert Word(m, 44) == 0x79C425C5; assert Word(m, 45) == 0x6353B49D;
    assert Word(m, 46) == 0x00994218; assert Word(m, 47) == 0x8A950ED1;
    assert Word(m, 48) == 0xAF5D0B99; assert Word(m, 49) == 0xFD9883DE;
    assert Word(m, 50) == 0x1ED8FFEB; assert Word(m, 51) == 0xF007FF28;
    assert Word(m, 52) == 0x425E3674; assert Word(m, 53) == 0x059631C0;
    assert Word(m, 54) == 0xAD6C3C31; assert Word(m, 55) == 0x860B71D7;
    assert Word(m, 56) == 0x87BFC548; assert Word(m, 57) == 0x3E64F92D;
    assert Word(m, 58) == 0x8D0AB761; assert Word(m, 59) == 0x34E1EE35;
    assert Word(m, 60) == 0x0ACF5108; assert Word(m, 61) == 0xC2B479DA;
    assert Word(m, 62) == 0x6C93370A; assert Word(m, 63) == 0xF7935BA1;
    assert Word(m, 64) == 0xE91C91C1; assert Word(m, 65) == 0xBED165A2;
    assert Word(m, 66) == 0x4C3E4ABE; assert Word(m, 67) == 0x50D96238;
    assert Word(m, 68) == 0xB6587DDE; assert Word(m, 69) == 0x1A2EE6E6;
    assert Word(m, 70) == 0x2D335896; assert Word(m, 71) == 0xF3495D0B;
    assert Word(m, 72) == 0xF30E0A1D; assert Word(m, 73) == 0x32CE5459;
    assert Word(m, 74) == 0x7165E3B8; assert Word(m, 75) == 0xAB05FF94;
    assert Word(m, 76) == 0xC5949F0B; assert Word(m, 77) == 0xBCD84E4A;
    assert Word(m, 78) == 0x07720392; assert Word(m, 79) == 0xFF3FF806;
    KeyBegins(h, m);
    var x := Rounds(h, w[..40]);
    x := Next(h, w, 40, x); x := Next(h, w, 41, x); x := Next(h, w, 42, x); x := Next(h, w, 43, x);
    x := Next(h, w, 44, x); x := Next(h, w, 45, x); x := Next(h, w, 46, x); x := Next(h, w, 47, x);
    x := Next(h, w, 48, x); x := Next(h, w, 49, x); x := Next(h, w, 50, x); x := Next(h, w, 51, x);
    x := Next(h, w, 52, x); x := Next(h, w, 53, x); x := Next(h, w, 54, x); x := Next(h, w, 55, x);
    x := Next(h, w, 56, x); x := Next(h, w, 57, x); x := Next(h, w, 58, x); x := Next(h, w, 59, x);
    x := Next(h, w, 60, x); x := Next(h, w, 61, x); x := Next(h, w, 62, x); x := Next(h, w, 63, x);
    x := Next(h, w, 64, x); x := Next(h, w, 65, x); x := Next(h, w, 66, x); x := Next(h, w, 67, x);
    x := Next(h, w, 68, x); x := Next(h, w, 69, x); x := Next(h, w, 70, x); x := Next(h, w, 71, x);
    x := Next(h, w, 72, x); x := Next(h, w, 73, x); x := Next(h, w, 74, x); x := Next(h, w, 75, x);
    x := Next(h, w, 76, x); x := Next(h, w, 77, x); x := Next(h, w, 78, x); x := Next(h, w, 79, x);
  }

  // ... and on the second.
  lemma {:induction false} KeyEndBegins(h: Hash, m: seq<word>)
    requires |m| == 16
    requires h == Hash(0x5BCF7727, 0x7327416A, 0xBE7BFBF9, 0x5A781878, 0x5E46A4E2)
    requires m[0] == 0x00000000 && m[1] == 0x00000000 && m[2] == 0x00000000 && m[3] == 0x00000000
    requires m[4] == 0x00000000 && m[5] == 0x00000000 && m[6] == 0x00000000 && m[7] == 0x00000000
    requires m[8] == 0x00000000 && m[9] == 0x00000000 && m[10] == 0x00000000 && m[11] == 0x00000000
    requires m[12] == 0x00000000 && m[13] == 0x00000000 && m[14] == 0x00000000 && m[15] == 0x000001E0
    ensures Rounds(h, Schedule(m)[..40])
         == Hash(0x6F698F1A, 0xC6FF0CD3, 0xDE5AB7BC, 0x5F6F3CBB, 0x1DA48A85)
  {
    var w := Schedule(m);
    assert Word(m, 16) == 0x00000000; assert Word(m, 17) == 0x00000000;
    assert Word(m, 18) == 0x000003C0; assert Word(m, 19) == 0x00000000;
    assert Word(m, 20) == 0x00000000; assert Word(m, 21) == 0x00000780;
    assert Word(m, 22) == 0x00000000; assert Word(m, 23) == 0x000003C0;
    assert Word(m, 24) == 0x00000F00; assert Word(m, 25) == 0x00000000;
    assert Word(m, 26) == 0x00000000; assert Word(m, 27) == 0x00001E00;
    assert Word(m, 28) == 0x00000000; assert Word(m, 29) == 0x00000CC0;
    assert Word(m, 30) == 0x00003C00; assert Word(m, 31) == 0x00000440;
    assert Word(m, 32) == 0x00000000; assert Word(m, 33) == 0x00007800;
    assert Word(m, 34) == 0x00000F00; assert Word(m, 35) == 0x00003300;
    assert Word(m, 36) == 0x0000F000; assert Word(m, 37) == 0x00000F00;
    assert Word(m, 38) == 0x00000000; assert Word(m, 39) == 0x0001EF00;
    assert w[..0] == [];
    var x := h;
    x := Next(h, w, 0, x); x := Next(h, w, 1, x); x := Next(h, w, 2, x); x := Next(h, w, 3, x);
    x := Next(h, w, 4, x); x := Next(h, w, 5, x); x := Next(h, w, 6, x); x := Next(h, w, 7, x);
    x := Next(h, w, 8, x); x := Next(h, w, 9, x); x := Next(h, w, 10, x); x := Next(h, w, 11, x);
    x := Next(h, w, 12, x); x := Next(h, w, 13, x); x := Next(h, w, 14, x); x := Next(h, w, 15, x);
    x := Next(h, w, 16, x); x := Next(h, w, 17, x); x := Next(h, w, 18, x); x := Next(h, w, 19, x);
    x := Next(h, w, 20, x); x := Next(h, w, 21, x); x := Next(h, w, 22, x); x := Next(h, w, 23, x);
    x := Next(h, w, 24, x); x := Next(h, w, 25, x); x := Next(h, w, 26, x); x := Next(h, w, 27, x);
    x := Next(h, w, 28, x); x := Next(h, w, 29, x); x := Next(h, w, 30, x); x := Next(h, w, 31, x);
    x := Next(h, w, 32, x); x := Next(h, w, 33, x); x := Next(h, w, 34, x); x := Next(h, w, 35, x);
    x := Next(h, w, 36, x); x := Next(h, w, 37, x); x := Next(h, w, 38, x); x := Next(h, w, 39, x);
  }

  lemma {:induction false} KeyEndRounds(h: Hash, m: seq<word>)
    requires |m| == 16
    requires h == Hash(0x5BCF7727, 0x7327416A, 0xBE7BFBF9, 0x5A781878, 0x5E46A4E2)
    requires m[0] == 0x00000000 && m[1] == 0x00000000 && m[2] == 0x00000000 && m[3] == 0x00000000
    requires m[4] == 0x00000000 && m[5] == 0x00000000 && m[6] == 0x00000000 && m[7] == 0x00000000
    requires m[8] == 0x00000000 && m[9] == 0x00000000 && m[10] == 0x00000000 && m[11] == 0x00000000
    requires m[12] == 0x00000000 && m[13] == 0x00000000 && m[14] == 0x00000000 && m[15] == 0x000001E0
    ensures Rounds(h, Schedule(m)[..80])
         == Hash(0x57AAD805, 0x4D3B0DAC, 0xD27A4A0D, 0x74C040CD, 0x54782008)
  {
    var w := Schedule(m);
    assert Word(m, 16) == 0x00000000; assert Word(m, 17) == 0x00000000;
    assert Word(m, 18) == 0x000003C0; assert Word(m, 19) == 0x00000000;
    assert Word(m, 20) == 0x00000000; assert Word(m, 21) == 0x00000780;
    assert Word(m, 22) == 0x00000000; assert Word(m, 23) == 0x000003C0;
    assert Word(m, 24) == 0x00000F00; assert Word(m, 25) == 0x00000000;
    assert Word(m, 26) == 0x00000000; assert Word(m, 27) == 0x00001E00;
    assert Word(m, 28) == 0x00000000; assert Word(m, 29) == 0x00000CC0;
    assert Word(m, 30) == 0x00003C00; assert Word(m, 31) == 0x00000440;
    assert Word(m, 32) == 0x00000000; assert Word(m, 33) == 0x00007800;
    assert Word(m, 34) == 0x00000F00; assert Word(m, 35) == 0x00003300;
    assert Word(m, 36) == 0x0000F000; assert Word(m, 37) == 0x00000F00;
    assert Word(m, 38) == 0x00000000; assert Word(m, 39) == 0x0001EF00;
    assert Word(m, 40) == 0x00000000; assert Word(m, 41) == 0x0000CC00;
    assert Word(m, 42) == 0x0003C000; assert Word(m, 43) == 0x00004380;
    assert Word(m, 44) == 0x00000000; assert Word(m, 45) == 0x00078F00;
    assert Word(m, 46) == 0x0000FF00; assert Word(m, 47) == 0x00032680;
    assert Word(m, 48) == 0x000F0000; assert Word(m, 49) == 0x0000F000;
    assert Word(m, 50) == 0x00003300; assert Word(m, 51) == 0x001EFF00;
    assert Word(m, 52) == 0x00000000; assert Word(m, 53) == 0x000CB800;
    assert Word(m, 54) == 0x003C0000; assert Word(m, 55) == 0x00040B00;
    assert Word(m, 56) == 0x0000F000; assert Word(m, 57) == 0x0078FF00;
    assert Word(m, 58) == 0x000FF000; assert Word(m, 59) == 0x00338700;
    assert Word(m, 60) == 0x00F00000; assert Word(m, 61) == 0x000FC300;
    assert Word(m, 62) == 0x0000F000; assert Word(m, 63) == 0x01EFBB00;
    assert Word(m, 64) == 0x00000000; assert Word(m, 65) == 0x00CC0000;
    assert Word(m, 66) == 0x03C0F000; assert Word(m, 67) == 0x00438000;
    assert Word(m, 68) == 0x00000000; assert Word(m, 69) == 0x078F0000;
    assert Word(m, 70) == 0x00FF0000; assert Word(m, 71) == 0x03269E00;
    assert Word(m, 72) == 0x0F000000; assert Word(m, 73) == 0x00F0F000;
    assert Word(m, 74) == 0x00333C00; assert Word(m, 75) == 0x1EFF8800;
    assert Word(m, 76) == 0x00000000; assert Word(m, 77) == 0x0CB88800;
    assert Word(m, 78) == 0x3C00F000; assert Word(m, 79) == 0x040A4A00;
    KeyEndBegins(h, m);
    var x := Rounds(h, w[..40]);
    x := Next(h, w, 40, x); x := Next(h, w, 41, x); x := Next(h, w, 42, x); x := Next(h, w, 43, x);
    x := Next(h, w, 44, x); x := Next(h, w, 45, x); x := Next(h, w, 46, x); x := Next(h, w, 47, x);
    x := Next(h, w, 48, x); x := Next(h, w, 49, x); x := Next(h, w, 50, x); x := Next(h, w, 51, x);
    x := Next(h, w, 52, x); x := Next(h, w, 53, x); x := Next(h, w, 54, x); x := Next(h, w, 55, x);
    x := Next(h, w, 56, x); x := Next(h, w, 57, x); x := Next(h, w, 58, x); x := Next(h, w, 59, x);
    x := Next(h, w, 60, x); x := Next(h, w, 61, x); x := Next(h, w, 62, x); x := Next(h, w, 63, x);
    x := Next(h, w, 64, x); x := Next(h, w, 65, x); x := Next(h, w, 66, x); x := Next(h, w, 67, x);
    x := Next(h, w, 68, x); x := Next(h, w, 69, x); x := Next(h, w, 70, x); x := Next(h, w, 71, x);
    x := Next(h, w, 72, x); x := Next(h, w, 73, x); x := Next(h, w, 74, x); x := Next(h, w, 75, x);
    x := Next(h, w, 76, x); x := Next(h, w, 77, x); x := Next(h, w, 78, x); x := Next(h, w, 79, x);
  }

  // ---------------------------------------------------------------- the texts as words

  lemma {:induction false} AbcText(p: seq<byte>)
    requires p == Ascii("abc") + Padding(3)
    ensures |p| == 64 && p[0] == 97 && p[1] == 98 && p[2] == 99 && p[3] == 128 && p[63] == 24
    ensures forall i :: 4 <= i < 63 ==> p[i] == 0
  {
    assert BigEndian(24, 8) == [0, 0, 0, 0, 0, 0, 0, 24];
  }

  lemma {:induction false} AbcWords(p: seq<byte>, m: seq<word>)
    requires p == Ascii("abc") + Padding(3) && |p| == 64 && m == FirstWords(p)
    ensures m[0] == 0x61626380 && m[1] == 0x00000000 && m[2] == 0x00000000 && m[3] == 0x00000000
    ensures m[4] == 0x00000000 && m[5] == 0x00000000 && m[6] == 0x00000000 && m[7] == 0x00000000
    ensures m[8] == 0x00000000 && m[9] == 0x00000000 && m[10] == 0x00000000 && m[11] == 0x00000000
    ensures m[12] == 0x00000000 && m[13] == 0x00000000 && m[14] == 0x00000000 && m[15] == 0x00000018
  {
    AbcText(p);
  }

  const SAMPLE := Ascii("dGhlIHNhbXBsZSBub25jZQ==")

  lemma {:induction false} SampleIs()
    ensures SAMPLE[..12] == [100, 71, 104, 108, 73, 72, 78, 104, 98, 88, 66, 115]
    ensures SAMPLE[12..] == [90, 83, 66, 117, 98, 50, 53, 106, 90, 81, 61, 61]
  {
    assert SAMPLE == [100, 71, 104, 108, 73, 72, 78, 104, 98, 88, 66, 115]
                     + [90, 83, 66, 117, 98, 50, 53, 106, 90, 81, 61, 61];
  }

  lemma {:induction false} MagicParts()
    ensures Http.MAGIC == Ascii("258EAFA5-E91") + Ascii("4-47DA-95CA-") + Ascii("C5AB0DC85B11")
  {
  }

  lemma {:induction false} MagicLetters()
    ensures Ascii("258EAFA5-E91") == [50, 53, 56, 69, 65, 70, 65, 53, 45, 69, 57, 49]
    ensures Ascii("4-47DA-95CA-") == [52, 45, 52, 55, 68, 65, 45, 57, 53, 67, 65, 45]
    ensures Ascii("C5AB0DC85B11") == [67, 53, 65, 66, 48, 68, 67, 56, 53, 66, 49, 49]
  {
  }

  lemma {:induction false} Thirds(k: seq<byte>, a: seq<byte>, b: seq<byte>, c: seq<byte>)
    requires k == a + b + c && |a| == |b| == |c| == 12
    ensures k[..12] == a && k[12..24] == b && k[24..] == c
  {
  }

  lemma {:induction false} MagicIs()
    ensures Http.MAGIC[..12] == [50, 53, 56, 69, 65, 70, 65, 53, 45, 69, 57, 49]
    ensures Http.MAGIC[12..24] == [52, 45, 52, 55, 68, 65, 45, 57, 53, 67, 65, 45]
    ensures Http.MAGIC[24..] == [67, 53, 65, 66, 48, 68, 67, 56, 53, 66, 49, 49]
  {
    MagicParts();
    MagicLetters();
    Thirds(Http.MAGIC, Ascii("258EAFA5-E91"), Ascii("4-47DA-95CA-"), Ascii("C5AB0DC85B11"));
  }

  lemma {:induction false} Twelve(p: seq<byte>, at: nat, s: seq<byte>)
    requires |s| == 12 && at + 12 <= |p| && p[at..at + 12] == s
    ensures p[at] == s[0] && p[at + 1] == s[1] && p[at + 2] == s[2] && p[at + 3] == s[3]
    ensures p[at + 4] == s[4] && p[at + 5] == s[5] && p[at + 6] == s[6] && p[at + 7] == s[7]
    ensures p[at + 8] == s[8] && p[at + 9] == s[9] && p[at + 10] == s[10] && p[at + 11] == s[11]
  {
    assert forall i :: at <= i < at + 12 ==> p[i] == p[at..at + 12][i - at];
  }

  lemma {:induction false} SamplePieces(p: seq<byte>)
    requires p == SAMPLE + Http.MAGIC + [128, 0, 0, 0]
    ensures |p| == 64
    ensures p[..12] == [100, 71, 104, 108, 73, 72, 78, 104, 98, 88, 66, 115]
    ensures p[12..24] == [90, 83, 66, 117, 98, 50, 53, 106, 90, 81, 61, 61]
    ensures p[24..36] == [50, 53, 56, 69, 65, 70, 65, 53, 45, 69, 57, 49]
    ensures p[36..48] == [52, 45, 52, 55, 68, 65, 45, 57, 53, 67, 65, 45]
    ensures p[48..60] == [67, 53, 65, 66, 48, 68, 67, 56, 53, 66, 49, 49]
  {
    SampleIs();
    MagicIs();
    assert p[..12] == SAMPLE[..12] && p[12..24] == SAMPLE[12..];
    assert p[24..36] == Http.MAGIC[..12] && p[36..48] == Http.MAGIC[12..24] && p[48..60] == Http.MAGIC[24..];
  }

  lemma {:induction false} SampleBytes(p: seq<byte>)
    requires |p| == 64
    requires p[..12] == [100, 71, 104, 108, 73, 72, 78, 104, 98, 88, 66, 115]
    requires p[12..24] == [90, 83, 66, 117, 98, 50, 53, 106, 90, 81, 61, 61]
    requires p[24..36] == [50, 53, 56, 69, 65, 70, 65, 53, 45, 69, 57, 49]
    requires p[36..48] == [52, 45, 52, 55, 68, 65, 45, 57, 53, 67, 65, 45]
    requires p[48..60] == [67, 53, 65, 66, 48, 68, 67, 56, 53, 66, 49, 49]
    ensures p[0] == 100 && p[1] == 71 && p[2] == 104 && p[3] == 108 && p[4] == 73 && p[5] == 72
    ensures p[6] == 78 && p[7] == 104 && p[8] == 98 && p[9] == 88 && p[10] == 66 && p[11] == 115
    ensures p[12] == 90 && p[13] == 83 && p[14] == 66 && p[15] == 117 && p[16] == 98 && p[17] == 50
    ensures p[18] == 53 && p[19] == 106 && p[20] == 90 && p[21] == 81 && p[22] == 61 && p[23] == 61
    ensures p[24] == 50 && p[25] == 53 && p[26] == 56 && p[27] == 69 && p[28] == 65 && p[29] == 70
    ensures p[30] == 65 && p[31] == 53 && p[32] == 45 && p[33] == 69 && p[34] == 57 && p[35] == 49
    ensures p[36] == 52 && p[37] == 45 && p[38] == 52 && p[39] == 55 && p[40] == 68 && p[41] == 65
    ensures p[42] == 45 && p[43] == 57 && p[44] == 53 && p[45] == 67 && p[46] == 65 && p[47] == 45
    ensures p[48] == 67 && p[49] == 53 && p[50] == 65 && p[51] == 66 && p[52] == 48 && p[53] == 68
    ensures p[54] == 67 && p[55] == 56 && p[56] == 53 && p[57] == 66 && p[58] == 49 && p[59] == 49
  {
    Twelve(p, 0, p[..12]);
    Twelve(p, 12, p[12..24]);
    Twelve(p, 24, p[24..36]);
    Twelve(p, 36, p[36..48]);
    Twelve(p, 48, p[48..60]);
  }

  lemma {:induction false} SampleWords(p: seq<byte>, m: seq<word>)
    requires p == SAMPLE + Http.MAGIC + [128, 0, 0, 0] && |p| == 64 && m == FirstWords(p)
    ensures m[0] == 0x6447686C && m[1] == 0x49484E68 && m[2] == 0x62584273 && m[3] == 0x5A534275
    ensures m[4] == 0x6232356A && m[5] == 0x5A513D3D && m[6] == 0x32353845 && m[7] == 0x41464135
    ensures m[8] == 0x2D453931 && m[9] == 0x342D3437 && m[10] == 0x44412D39 && m[11] == 0x3543412D
    ensures m[12] == 0x43354142 && m[13] == 0x30444338 && m[14] == 0x35423131 && m[15] == 0x80000000
  {
    SamplePieces(p);
    SampleBytes(p);
    assert p[60] == 128 && p[61] == p[62] == p[63] == 0;
  }

  lemma {:induction false} SampleEndWords(p: seq<byte>, m: seq<word>)
    requires p == SAMPLE + Http.MAGIC + Padding(60) && |p| == 128 && m == FirstWords(p[64..])
    ensures m[0] == 0x00000000 && m[1] == 0x00000000 && m[2] == 0x00000000 && m[3] == 0x00000000
    ensures m[4] == 0x00000000 && m[5] == 0x00000000 && m[6] == 0x00000000 && m[7] == 0x00000000
    ensures m[8] == 0x00000000 && m[9] == 0x00000000 && m[10] == 0x00000000 && m[11] == 0x00000000
    ensures m[12] == 0x00000000 && m[13] == 0x00000000 && m[14] == 0x00000000 && m[15] == 0x000001E0
  {
    assert BigEndian(480, 8) == [0, 0, 0, 0, 0, 0, 1, 224];
    assert forall i :: 64 <= i < 126 ==> p[i] == 0;
    assert p[126] == 1 && p[127] == 224;
  }

  // ---------------------------------------------------------------- the answers

  lemma {:induction false} OneBlock(h: Hash, block: chunk)
    ensures Blocks(block) == [block] && Fold(h, [block]) == Block(h, block)
  {
    assert block[..64] == block && Blocks(block[64..]) == [];
    assert [block][..0] == [];
  }

  lemma {:induction false} TwoBlocks(h: Hash, a: chunk, b: chunk)
    ensures Blocks(a + b) == [a, b] && Fold(h, [a, b]) == Block(Block(h, a), b)
  {
    OneBlock(h, a);
    OneBlock(h, b);
    assert (a + b)[..64] == a && (a + b)[64..] == b;
    assert [a] + [b] == [a, b] && [a, b][..1] == [a];
  }

  lemma {:induction false} AbcPlus(h: Hash, r: Hash)
    requires h == Hash(0x67452301, 0xEFCDAB89, 0x98BADCFE, 0x10325476, 0xC3D2E1F0)
    requires r == Hash(0x42541B35, 0x5738D5E1, 0x21834873, 0x681E6DF6, 0xD8FDF6AD)
    ensures h.Plus(r) == Hash(0xA9993E36, 0x4706816A, 0xBA3E2571, 0x7850C26C, 0x9CD0D89D)
  {
  }

  lemma {:induction false} AbcBytes(h: Hash)
    requires h == Hash(0xA9993E36, 0x4706816A, 0xBA3E2571, 0x7850C26C, 0x9CD0D89D)
    ensures HashBytes(h)
         == [0xA9, 0x99, 0x3E, 0x36, 0x47, 0x06, 0x81, 0x6A, 0xBA, 0x3E,
             0x25, 0x71, 0x78, 0x50, 0xC2, 0x6C, 0x9C, 0xD0, 0xD8, 0x9D]
  {
  }

  // Section 7.3 of RFC 3174.
  lemma {:induction false} AbcDigest()
    ensures Digest(Ascii("abc"))
         == [0xA9, 0x99, 0x3E, 0x36, 0x47, 0x06, 0x81, 0x6A, 0xBA, 0x3E,
             0x25, 0x71, 0x78, 0x50, 0xC2, 0x6C, 0x9C, 0xD0, 0xD8, 0x9D]
  {
    var p := Ascii("abc") + Padding(3);
    AbcText(p);
    var m := FirstWords(p);
    AbcWords(p, m);
    AbcRounds(INIT, m);
    var r := Rounds(INIT, Schedule(m)[..80]);
    BlockOf(INIT, p, r);
    AbcPlus(INIT, r);
    AbcBytes(Block(INIT, p));
    OneBlock(INIT, p);
  }

  lemma {:induction false} SampleHash(h: Hash)
    requires h == Hash(0xB37A4F2C, 0xC0624F16, 0x90F64606, 0xCF385945, 0xB2BEC4EA)
    ensures HashBytes(h)
         == [0xB3, 0x7A, 0x4F, 0x2C, 0xC0, 0x62, 0x4F, 0x16, 0x90, 0xF6,
             0x46, 0x06, 0xCF, 0x38, 0x59, 0x45, 0xB2, 0xBE, 0xC4, 0xEA]
  {
  }

  lemma {:induction false} SamplePlus(h: Hash, r: Hash)
    requires h == Hash(0x67452301, 0xEFCDAB89, 0x98BADCFE, 0x10325476, 0xC3D2E1F0)
    requires r == Hash(0xF48A5426, 0x835995E1, 0x25C11EFB, 0x4A45C402, 0x9A73C2F2)
    ensures h.Plus(r) == Hash(0x5BCF7727, 0x7327416A, 0xBE7BFBF9, 0x5A781878, 0x5E46A4E2)
  {
  }

  lemma {:induction false} SampleEndPlus(h: Hash, r: Hash)
    requires h == Hash(0x5BCF7727, 0x7327416A, 0xBE7BFBF9, 0x5A781878, 0x5E46A4E2)
    requires r == Hash(0x57AAD805, 0x4D3B0DAC, 0xD27A4A0D, 0x74C040CD, 0x54782008)
    ensures h.Plus(r) == Hash(0xB37A4F2C, 0xC0624F16, 0x90F64606, 0xCF385945, 0xB2BEC4EA)
  {
  }

  lemma {:induction false} SampleFold(a: chunk, b: chunk)
    requires SAMPLE + Http.MAGIC + Padding(60) == a + b
    ensures Fold(INIT, [a, b]) == Hash(0xB37A4F2C, 0xC0624F16, 0x90F64606, 0xCF385945, 0xB2BEC4EA)
  {
    var p := SAMPLE + Http.MAGIC + Padding(60);
    assert p[..64] == a && p[64..] == b;
    var m, n := FirstWords(a), FirstWords(b);
    SampleWords(a, m);
    KeyRounds(INIT, m);
    var r := Rounds(INIT, Schedule(m)[..80]);
    BlockOf(INIT, a, r);
    SamplePlus(INIT, r);
    SampleEndWords(p, n);
    var h := Block(INIT, a);
    KeyEndRounds(h, n);
    var s := Rounds(h, Schedule(n)[..80]);
    BlockOf(h, b, s);
    SampleEndPlus(h, s);
    TwoBlocks(INIT, a, b);
  }

  lemma {:induction false} SampleDigest()
    ensures Digest(SAMPLE + Http.MAGIC)
         == [0xB3, 0x7A, 0x4F, 0x2C, 0xC0, 0x62, 0x4F, 0x16, 0x90, 0xF6,
             0x46, 0x06, 0xCF, 0x38, 0x59, 0x45, 0xB2, 0xBE, 0xC4, 0xEA]
  {
    var p := SAMPLE + Http.MAGIC + Padding(60);
    SampleFold(p[..64], p[64..]);
    SampleHash(Fold(INIT, [p[..64], p[64..]]));
    TwoBlocks(INIT, p[..64], p[64..]);
    assert p == p[..64] + p[64..];
  }

  lemma {:induction false} Quad(p: seq<byte>, i: nat, a: byte, b: byte, c: byte, s: string)
    requires 3 * i + 3 <= |p| && p[3 * i] == a && p[3 * i + 1] == b && p[3 * i + 2] == c
    requires Ascii(s) == Base64.Letters(Base64.Split(a, b, c))
    ensures |Base64.Encode(p)| >= 4 * i + 4 && Base64.Encode(p)[4 * i..4 * i + 4] == Ascii(s)
  {
    Base64.EncodedAt(p, i);
  }

  lemma {:induction false} SampleFront(p: seq<byte>, e: seq<byte>)
    requires |p| == 20 && e == Base64.Encode(p)
    requires p[0] == 0xB3 && p[1] == 0x7A && p[2] == 0x4F && p[3] == 0x2C && p[4] == 0xC0
    requires p[5] == 0x62 && p[6] == 0x4F && p[7] == 0x16 && p[8] == 0x90
    ensures |e| == 28
    ensures e[..4] == Ascii("s3pP")
    ensures e[4..8] == Ascii("LMBi")
    ensures e[8..12] == Ascii("TxaQ")
  {
    Quad(p, 0, 0xB3, 0x7A, 0x4F, "s3pP");
    Quad(p, 1, 0x2C, 0xC0, 0x62, "LMBi");
    Quad(p, 2, 0x4F, 0x16, 0x90, "TxaQ");
  }

  lemma {:induction false} SampleBack(p: seq<byte>, e: seq<byte>)
    requires |p| == 20 && e == Base64.Encode(p)
    requires p[9] == 0xF6 && p[10] == 0x46 && p[11] == 0x06 && p[12] == 0xCF && p[13] == 0x38
    requires p[14] == 0x59 && p[15] == 0x45 && p[16] == 0xB2 && p[17] == 0xBE && p[18] == 0xC4
    requires p[19] == 0xEA
    ensures |e| == 28
    ensures e[12..16] == Ascii("9kYG")
    ensures e[16..20] == Ascii("zzhZ")
    ensures e[20..24] == Ascii("RbK+")
    ensures e[24..28] == Ascii("xOo=")
  {
    Quad(p, 3, 0xF6, 0x46, 0x06, "9kYG");
    Quad(p, 4, 0xCF, 0x38, 0x59, "zzhZ");
    Quad(p, 5, 0x45, 0xB2, 0xBE, "RbK+");
    Base64.EncodedEnd(p, 6);
    assert e[24..28] == e[24..];
  }

  lemma {:induction false} Quads(e: seq<byte>)
    requires |e| == 28
    requires e[..4] == Ascii("s3pP")
    requires e[4..8] == Ascii("LMBi")
    requires e[8..12] == Ascii("TxaQ")
    requires e[12..16] == Ascii("9kYG")
    requires e[16..20] == Ascii("zzhZ")
    requires e[20..24] == Ascii("RbK+")
    requires e[24..28] == Ascii("xOo=")
    ensures e == Ascii("s3pPLMBiTxaQ9kYGzzhZRbK+xOo=")
  {
  }

  lemma {:induction false} DigestBytes(d: seq<byte>)
    requires d
         == [0xB3, 0x7A, 0x4F, 0x2C, 0xC0, 0x62, 0x4F, 0x16, 0x90, 0xF6,
             0x46, 0x06, 0xCF, 0x38, 0x59, 0x45, 0xB2, 0xBE, 0xC4, 0xEA]
    ensures |d| == 20
    ensures d[0] == 0xB3 && d[1] == 0x7A && d[2] == 0x4F && d[3] == 0x2C && d[4] == 0xC0
    ensures d[5] == 0x62 && d[6] == 0x4F && d[7] == 0x16 && d[8] == 0x90 && d[9] == 0xF6
    ensures d[10] == 0x46 && d[11] == 0x06 && d[12] == 0xCF && d[13] == 0x38 && d[14] == 0x59
    ensures d[15] == 0x45 && d[16] == 0xB2 && d[17] == 0xBE && d[18] == 0xC4 && d[19] == 0xEA
  {
  }

  lemma {:induction false} SampleLetters(d: seq<byte>, e: seq<byte>)
    requires |d| == 20 && e == Base64.Encode(d)
    requires d[0] == 0xB3 && d[1] == 0x7A && d[2] == 0x4F && d[3] == 0x2C && d[4] == 0xC0
    requires d[5] == 0x62 && d[6] == 0x4F && d[7] == 0x16 && d[8] == 0x90 && d[9] == 0xF6
    requires d[10] == 0x46 && d[11] == 0x06 && d[12] == 0xCF && d[13] == 0x38 && d[14] == 0x59
    requires d[15] == 0x45 && d[16] == 0xB2 && d[17] == 0xBE && d[18] == 0xC4 && d[19] == 0xEA
    ensures e == Ascii("s3pPLMBiTxaQ9kYGzzhZRbK+xOo=")
  {
    SampleFront(d, e);
    SampleBack(d, e);
    Quads(e);
  }

  // Section 1.3 of RFC 6455.
  lemma {:induction false} SampleAccept()
    ensures Http.Accept(SAMPLE) == Ascii("s3pPLMBiTxaQ9kYGzzhZRbK+xOo=")
  {
    SampleDigest();
    var d := Digest(SAMPLE + Http.MAGIC);
    DigestBytes(d);
    SampleLetters(d, Base64.Encode(d));
  }
}
