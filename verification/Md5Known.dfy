/** What the definitions of MD5 compute: the auxiliary functions and the rotation bit by bit, the bytes of a word,
    and the digests that RFC 1321 publishes for two messages. */
module Md5Known {
  import opened Md5

  // ------------------------------------------------- the auxiliary functions, bit by bit

  /** Where x is set, as the mask m says, F is y, and where it is not, z. */
  lemma FBits(x: Word, y: Word, z: Word, m: Word)
    ensures x & m == m ==> F(x, y, z) & m == y & m
    ensures x & m == 0 ==> F(x, y, z) & m == z & m
  {
  }

  /** Where z is set, G is x, and where it is not, y. */
  lemma GBits(x: Word, y: Word, z: Word, m: Word)
    ensures z & m == m ==> G(x, y, z) & m == x & m
    ensures z & m == 0 ==> G(x, y, z) & m == y & m
  {
  }

  /** Where x and y agree, H is z, and where they differ, it is not z. */
  lemma HBits(x: Word, y: Word, z: Word, m: Word)
    ensures x & m == y & m ==> H(x, y, z) & m == z & m
    ensures (x ^ y) & m == m ==> H(x, y, z) & m == !z & m
  {
  }

  /** Where z is set and x is not, I is y, and elsewhere it is not y. */
  lemma IBits(x: Word, y: Word, z: Word, m: Word)
    ensures x & m == 0 && z & m == m ==> I(x, y, z) & m == y & m
    ensures x & m == m || z & m == 0 ==> I(x, y, z) & m == !y & m
  {
  }

  /** Rotation by n sends bit k to bit k + n. */
  lemma RotatedBit(x: Word, n: Word, k: Word)
    requires n < 32 && k < 32
    ensures k + n < 32 ==> (RotateLeft(x, n) >> (k + n)) & 1 == (x >> k) & 1
  {
  }

  /** The bits for which that is too high go round. */
  lemma RotatedRound(x: Word, n: Word, k: Word)
    requires n < 32 && k < 32
    ensures k + n >= 32 ==> (RotateLeft(x, n) >> (k + n - 32)) & 1 == (x >> k) & 1
  {
  }

  // ------------------------------------------------------------------ the bytes of a word

  lemma LowPlaces(w: Word)
    ensures WordByte(w, 0) as Word == w & 0xff && WordByte(w, 1) as Word * 0x100 == w & 0xff00
  {
  }

  lemma ThirdPlace(w: Word)
    ensures WordByte(w, 2) as Word * 0x1_0000 == w & 0xff_0000
  {
  }

  lemma HighPlace(w: Word)
    ensures WordByte(w, 3) as Word * 0x100_0000 == w & 0xff00_0000
  {
  }

  lemma Parts(w: Word)
    ensures w == (w & 0xff) + (w & 0xff00) + (w & 0xff_0000) + (w & 0xff00_0000)
  {
  }

  /** The bytes of a word sum up to it, the low-order one first. */
  lemma WordBytes(w: Word)
    ensures w == WordByte(w, 0) as Word + WordByte(w, 1) as Word * 0x100 + WordByte(w, 2) as Word * 0x1_0000
      + WordByte(w, 3) as Word * 0x100_0000
  {
    LowPlaces(w);
    ThirdPlace(w);
    HighPlace(w);
    Parts(w);
    hide WordByte;
  }

  lemma NextByte(b: Byte)
    requires b != 0xff
    ensures (b + 1) as nat == b as nat + 1
  {
  }

  lemma NatBack(b: Byte)
    ensures b as nat as Byte == b
  {
  }

  lemma {:induction false} ByteBack(v: nat)
    requires v < 0x100
    ensures v as Byte as nat == v
  {
    if v > 0 {
      ByteBack(v - 1);
      var b := (v - 1) as Byte;
      assert b != 0xff;
      NextByte(b);
      NatBack(b + 1);
      assert v == (b + 1) as nat;
    }
  }

  lemma BytesAre(n: nat)
    ensures ByteOf(n, 0) as nat == n % 0x100 && ByteOf(n, 1) as nat == n / 0x100 % 0x100
    ensures ByteOf(n, 2) as nat == n / 0x1_0000 % 0x100 && ByteOf(n, 3) as nat == n / 0x100_0000 % 0x100
  {
    ByteBack(n % 0x100);
    ByteBack(n / 0x100 % 0x100);
    ByteBack(n / 0x1_0000 % 0x100);
    ByteBack(n / 0x100_0000 % 0x100);
  }

  lemma Digits(n: nat)
    requires n < TWO32
    ensures n == n % 0x100 + 0x100 * (n / 0x100 % 0x100) + 0x1_0000 * (n / 0x1_0000 % 0x100)
      + 0x100_0000 * (n / 0x100_0000 % 0x100)
  {
  }

  /** So do the bytes of a number of 32 bits. */
  lemma NumberBytes(n: nat)
    requires n < TWO32
    ensures n == ByteOf(n, 0) as nat + 0x100 * ByteOf(n, 1) as nat + 0x1_0000 * ByteOf(n, 2) as nat
      + 0x100_0000 * ByteOf(n, 3) as nat
  {
    BytesAre(n);
    Digits(n);
    hide ByteOf;
  }

  // ------------------------------------------------- the digests of the empty message and of abc

  const EMPTY: seq<Byte> := []
  const ABC: seq<Byte> := [0x61, 0x62, 0x63]

  /** The sixteen words of a padded message of less than four bytes. */
  predicate OneBlock(x: seq<Word>, first: Word, bits: Word) {
    |x| == 16 && x[0] == first && x[14] == bits && x[15] == 0 && forall i :: 1 <= i < 14 ==> x[i] == 0
  }

  /** One step on known words. */
  lemma Turn(x: seq<Word>, i: nat, a: Word, b: Word, c: Word, d: Word, k: Word, s: Word, t: Word, e: Word)
    requires |x| == 16 && i < 64 && Steps(INIT, x, i) == State(a, b, c, d) && s <= 32
    requires x[K(i)] == k && S(i) == s && T(i + 1) == t
    requires Op(Aux(i, b, c, d), a, b, k, s, t) == e
    ensures Steps(INIT, x, i + 1) == State(d, e, b, c)
  {
  }

  lemma Table1()
    ensures T(1) == 0xd76aa478
    ensures T(2) == 0xe8c7b756
    ensures T(3) == 0x242070db
    ensures T(4) == 0xc1bdceee
    ensures T(5) == 0xf57c0faf
    ensures T(6) == 0x4787c62a
    ensures T(7) == 0xa8304613
    ensures T(8) == 0xfd469501
  {
  }

  lemma Table2()
    ensures T(9) == 0x698098d8
    ensures T(10) == 0x8b44f7af
    ensures T(11) == 0xffff5bb1
    ensures T(12) == 0x895cd7be
    ensures T(13) == 0x6b901122
    ensures T(14) == 0xfd987193
    ensures T(15) == 0xa679438e
    ensures T(16) == 0x49b40821
  {
  }

  lemma Table3()
    ensures T(17) == 0xf61e2562
    ensures T(18) == 0xc040b340
    ensures T(19) == 0x265e5a51
    ensures T(20) == 0xe9b6c7aa
    ensures T(21) == 0xd62f105d
    ensures T(22) == 0x02441453
    ensures T(23) == 0xd8a1e681
    ensures T(24) == 0xe7d3fbc8
  {
  }

  lemma Table4()
    ensures T(25) == 0x21e1cde6
    ensures T(26) == 0xc33707d6
    ensures T(27) == 0xf4d50d87
    ensures T(28) == 0x455a14ed
    ensures T(29) == 0xa9e3e905
    ensures T(30) == 0xfcefa3f8
    ensures T(31) == 0x676f02d9
    ensures T(32) == 0x8d2a4c8a
  {
  }

  lemma Table5()
    ensures T(33) == 0xfffa3942
    ensures T(34) == 0x8771f681
    ensures T(35) == 0x6d9d6122
    ensures T(36) == 0xfde5380c
    ensures T(37) == 0xa4beea44
    ensures T(38) == 0x4bdecfa9
    ensures T(39) == 0xf6bb4b60
    ensures T(40) == 0xbebfbc70
  {
  }

  lemma Table6()
    ensures T(41) == 0x289b7ec6
    ensures T(42) == 0xeaa127fa
    ensures T(43) == 0xd4ef3085
    ensures T(44) == 0x04881d05
    ensures T(45) == 0xd9d4d039
    ensures T(46) == 0xe6db99e5
    ensures T(47) == 0x1fa27cf8
    ensures T(48) == 0xc4ac5665
  {
  }

  lemma Table7()
    ensures T(49) == 0xf4292244
    ensures T(50) == 0x432aff97
    ensures T(51) == 0xab9423a7
    ensures T(52) == 0xfc93a039
    ensures T(53) == 0x655b59c3
    ensures T(54) == 0x8f0ccc92
    ensures T(55) == 0xffeff47d
    ensures T(56) == 0x85845dd1
  {
  }

  lemma Table8()
    ensures T(57) == 0x6fa87e4f
    ensures T(58) == 0xfe2ce6e0
    ensures T(59) == 0xa3014314
    ensures T(60) == 0x4e0811a1
    ensures T(61) == 0xf7537e82
    ensures T(62) == 0xbd3af235
    ensures T(63) == 0x2ad7d2bb
    ensures T(64) == 0xeb86d391
  {
  }

  lemma Empty1(x: seq<Word>)
    requires OneBlock(x, 0x00000080, 0x00000000)
    requires Steps(INIT, x, 0) == State(0x67452301, 0xefcdab89, 0x98badcfe, 0x10325476)
    ensures Steps(INIT, x, 16) == State(0xf56c7cf1, 0xd6819c6a, 0x5aa53f75, 0x374943a7)
  {
    hide Steps, K, S, T;
    Words1();
    Table1();
    Table2();
    Shifts1(0);
    Turn(x, 0, 0x67452301, 0xefcdab89, 0x98badcfe, 0x10325476, 0x00000080, 7, 0xd76aa478, 0xa5202774);
    Turn(x, 1, 0x10325476, 0xa5202774, 0xefcdab89, 0x98badcfe, 0x00000000, 12, 0xe8c7b756, 0xf59592dd);
    Turn(x, 2, 0x98badcfe, 0xf59592dd, 0xa5202774, 0xefcdab89, 0x00000000, 17, 0x242070db, 0xe7f06b23);
    Turn(x, 3, 0xefcdab89, 0xe7f06b23, 0xf59592dd, 0xa5202774, 0x00000000, 22, 0xc1bdceee, 0x1b163203);
    Shifts1(4);
    Turn(x, 4, 0xa5202774, 0x1b163203, 0xe7f06b23, 0xf59592dd, 0x00000000, 7, 0xf57c0faf, 0x32033344);
    Turn(x, 5, 0xf59592dd, 0x32033344, 0x1b163203, 0xe7f06b23, 0x00000000, 12, 0x4787c62a, 0x2f35d494);
    Turn(x, 6, 0xe7f06b23, 0x2f35d494, 0x32033344, 0x1b163203, 0x00000000, 17, 0xa8304613, 0xf5b158db);
    Turn(x, 7, 0x1b163203, 0xf5b158db, 0x2f35d494, 0x32033344, 0x00000000, 22, 0xfd469501, 0x9bc13ce9);
    Shifts1(8);
    Turn(x, 8, 0x32033344, 0x9bc13ce9, 0xf5b158db, 0x2f35d494, 0x00000000, 7, 0x698098d8, 0x3893b991);
    Turn(x, 9, 0x2f35d494, 0x3893b991, 0x9bc13ce9, 0xf5b158db, 0x00000000, 12, 0x8b44f7af, 0xfce4a312);
    Turn(x, 10, 0xf5b158db, 0xfce4a312, 0x3893b991, 0x9bc13ce9, 0x00000000, 17, 0xffff5bb1, 0xe1ef0576);
    Turn(x, 11, 0x9bc13ce9, 0xe1ef0576, 0xfce4a312, 0x3893b991, 0x00000000, 22, 0x895cd7be, 0x70768a29);
    Shifts1(12);
    Turn(x, 12, 0x3893b991, 0x70768a29, 0xe1ef0576, 0xfce4a312, 0x00000000, 7, 0x6b901122, 0xf56c7cf1);
    Turn(x, 13, 0xfce4a312, 0xf56c7cf1, 0x70768a29, 0xe1ef0576, 0x00000000, 12, 0xfd987193, 0x374943a7);
    Turn(x, 14, 0xe1ef0576, 0x374943a7, 0xf56c7cf1, 0x70768a29, 0x00000000, 17, 0xa679438e, 0x5aa53f75);
    Turn(x, 15, 0x70768a29, 0x5aa53f75, 0x374943a7, 0xf56c7cf1, 0x00000000, 22, 0x49b40821, 0xd6819c6a);
  }

  lemma Empty2(x: seq<Word>)
    requires OneBlock(x, 0x00000080, 0x00000000)
    requires Steps(INIT, x, 16) == State(0xf56c7cf1, 0xd6819c6a, 0x5aa53f75, 0x374943a7)
    ensures Steps(INIT, x, 32) == State(0x13707036, 0xa2205f1f, 0x1c31c384, 0xae7813db)
  {
    hide Steps, K, S, T;
    Words2();
    Table3();
    Table4();
    Shifts2(16);
    Turn(x, 16, 0xf56c7cf1, 0xd6819c6a, 0x5aa53f75, 0x374943a7, 0x00000000, 5, 0xf61e2562, 0x1c7d7513);
    Turn(x, 17, 0x374943a7, 0x1c7d7513, 0xd6819c6a, 0x5aa53f75, 0x00000000, 9, 0xc040b340, 0x7bd57a3a);
    Turn(x, 18, 0x5aa53f75, 0x7bd57a3a, 0x1c7d7513, 0xd6819c6a, 0x00000000, 14, 0x265e5a51, 0xc095f13a);
    Turn(x, 19, 0xd6819c6a, 0xc095f13a, 0x7bd57a3a, 0x1c7d7513, 0x00000080, 20, 0xe9b6c7aa, 0xbd782e17);
    Shifts2(20);
    Turn(x, 20, 0x1c7d7513, 0xbd782e17, 0xc095f13a, 0x7bd57a3a, 0x00000000, 5, 0xd62f105d, 0x3d1e3e6c);
    Turn(x, 21, 0x7bd57a3a, 0x3d1e3e6c, 0xbd782e17, 0xc095f13a, 0x00000000, 9, 0x02441453, 0x68b7b3e3);
    Turn(x, 22, 0xc095f13a, 0x68b7b3e3, 0x3d1e3e6c, 0xbd782e17, 0x00000000, 14, 0xd8a1e681, 0xeb41643e);
    Turn(x, 23, 0xbd782e17, 0xeb41643e, 0x68b7b3e3, 0x3d1e3e6c, 0x00000000, 20, 0xe7d3fbc8, 0xe422531a);
    Shifts2(24);
    Turn(x, 24, 0x3d1e3e6c, 0xe422531a, 0xeb41643e, 0x68b7b3e3, 0x00000000, 5, 0x21e1cde6, 0x306ec122);
    Turn(x, 25, 0x68b7b3e3, 0x306ec122, 0xe422531a, 0xeb41643e, 0x00000000, 9, 0xc33707d6, 0xd28c77c2);
    Turn(x, 26, 0xeb41643e, 0xd28c77c2, 0x306ec122, 0xe422531a, 0x00000000, 14, 0xf4d50d87, 0xa3c663da);
    Turn(x, 27, 0xe422531a, 0xa3c663da, 0xd28c77c2, 0x306ec122, 0x00000000, 20, 0x455a14ed, 0xa0572807);
    Shifts2(28);
    Turn(x, 28, 0x306ec122, 0xa0572807, 0xa3c663da, 0xd28c77c2, 0x00000000, 5, 0xa9e3e905, 0x13707036);
    Turn(x, 29, 0xd28c77c2, 0x13707036, 0xa0572807, 0xa3c663da, 0x00000000, 9, 0xfcefa3f8, 0xae7813db);
    Turn(x, 30, 0xa3c663da, 0xae7813db, 0x13707036, 0xa0572807, 0x00000000, 14, 0x676f02d9, 0x1c31c384);
    Turn(x, 31, 0xa0572807, 0x1c31c384, 0xae7813db, 0x13707036, 0x00000000, 20, 0x8d2a4c8a, 0xa2205f1f);
  }

  lemma Empty3(x: seq<Word>)
    requires OneBlock(x, 0x00000080, 0x00000000)
    requires Steps(INIT, x, 32) == State(0x13707036, 0xa2205f1f, 0x1c31c384, 0xae7813db)
    ensures Steps(INIT, x, 48) == State(0x3f55edfd, 0xca7d2dbd, 0x68d84ea2, 0x22a31f54)
  {
    hide Steps, K, S, T;
    Words3();
    Table5();
    Table6();
    Shifts3(32);
    Turn(x, 32, 0x13707036, 0xa2205f1f, 0x1c31c384, 0xae7813db, 0x00000000, 4, 0xfffa3942, 0xdf63eaa1);
    Turn(x, 33, 0xae7813db, 0xdf63eaa1, 0xa2205f1f, 0x1c31c384, 0x00000000, 11, 0x8771f681, 0xc3689f5b);
    Turn(x, 34, 0x1c31c384, 0xc3689f5b, 0xdf63eaa1, 0xa2205f1f, 0x00000000, 16, 0x6d9d6122, 0x12f3e755);
    Turn(x, 35, 0xa2205f1f, 0x12f3e755, 0xc3689f5b, 0xdf63eaa1, 0x00000000, 23, 0xfde5380c, 0x004b6669);
    Shifts3(36);
    Turn(x, 36, 0xdf63eaa1, 0x004b6669, 0x12f3e755, 0xc3689f5b, 0x00000000, 4, 0xa4beea44, 0x5f7a9b2e);
    Turn(x, 37, 0xc3689f5b, 0x5f7a9b2e, 0x004b6669, 0x12f3e755, 0x00000000, 11, 0x4bdecfa9, 0xabc34e16);
    Turn(x, 38, 0x12f3e755, 0xabc34e16, 0x5f7a9b2e, 0x004b6669, 0x00000000, 16, 0xf6bb4b60, 0x91ca4cb7);
    Turn(x, 39, 0x004b6669, 0x91ca4cb7, 0xabc34e16, 0x5f7a9b2e, 0x00000000, 23, 0xbebfbc70, 0xc5dc8c15);
    Shifts3(40);
    Turn(x, 40, 0x5f7a9b2e, 0xc5dc8c15, 0x91ca4cb7, 0xabc34e16, 0x00000000, 4, 0x289b7ec6, 0x4497169d);
    Turn(x, 41, 0xabc34e16, 0x4497169d, 0xc5dc8c15, 0x91ca4cb7, 0x00000080, 11, 0xeaa127fa, 0x76fd93d4);
    Turn(x, 42, 0x91ca4cb7, 0x76fd93d4, 0x4497169d, 0xc5dc8c15, 0x00000000, 16, 0xd4ef3085, 0xfd95f243);
    Turn(x, 43, 0xc5dc8c15, 0xfd95f243, 0x76fd93d4, 0x4497169d, 0x00000000, 23, 0x04881d05, 0x0fe32453);
    Shifts3(44);
    Turn(x, 44, 0x4497169d, 0x0fe32453, 0xfd95f243, 0x76fd93d4, 0x00000000, 4, 0xd9d4d039, 0x3f55edfd);
    Turn(x, 45, 0x76fd93d4, 0x3f55edfd, 0x0fe32453, 0xfd95f243, 0x00000000, 11, 0xe6db99e5, 0x22a31f54);
    Turn(x, 46, 0xfd95f243, 0x22a31f54, 0x3f55edfd, 0x0fe32453, 0x00000000, 16, 0x1fa27cf8, 0x68d84ea2);
    Turn(x, 47, 0x0fe32453, 0x68d84ea2, 0x22a31f54, 0x3f55edfd, 0x00000000, 23, 0xc4ac5665, 0xca7d2dbd);
  }

  lemma Empty4(x: seq<Word>)
    requires OneBlock(x, 0x00000080, 0x00000000)
    requires Steps(INIT, x, 48) == State(0x3f55edfd, 0xca7d2dbd, 0x68d84ea2, 0x22a31f54)
    ensures Steps(INIT, x, 64) == State(0x7246fad3, 0x14e45506, 0xff4ea3eb, 0x6e10a476)
  {
    hide Steps, K, S, T;
    Words4();
    Table7();
    Table8();
    Shifts4(48);
    Turn(x, 48, 0x3f55edfd, 0xca7d2dbd, 0x68d84ea2, 0x22a31f54, 0x00000080, 6, 0xf4292244, 0x93aa2577);
    Turn(x, 49, 0x22a31f54, 0x93aa2577, 0xca7d2dbd, 0x68d84ea2, 0x00000000, 10, 0x432aff97, 0x1688dc85);
    Turn(x, 50, 0x68d84ea2, 0x1688dc85, 0x93aa2577, 0xca7d2dbd, 0x00000000, 15, 0xab9423a7, 0xcd85b8cb);
    Turn(x, 51, 0xca7d2dbd, 0xcd85b8cb, 0x1688dc85, 0x93aa2577, 0x00000000, 21, 0xfc93a039, 0x561e0689);
    Shifts4(52);
    Turn(x, 52, 0x93aa2577, 0x561e0689, 0xcd85b8cb, 0x1688dc85, 0x00000000, 6, 0x655b59c3, 0x5625a114);
    Turn(x, 53, 0x1688dc85, 0x5625a114, 0x561e0689, 0xcd85b8cb, 0x00000000, 10, 0x8f0ccc92, 0x3450f42b);
    Turn(x, 54, 0xcd85b8cb, 0x3450f42b, 0x5625a114, 0x561e0689, 0x00000000, 15, 0xffeff47d, 0x392ad0d0);
    Turn(x, 55, 0x561e0689, 0x392ad0d0, 0x3450f42b, 0x5625a114, 0x00000000, 21, 0x85845dd1, 0x1e77fa61);
    Shifts4(56);
    Turn(x, 56, 0x5625a114, 0x1e77fa61, 0x392ad0d0, 0x3450f42b, 0x00000000, 6, 0x6fa87e4f, 0x474a9c8c);
    Turn(x, 57, 0x3450f42b, 0x474a9c8c, 0x1e77fa61, 0x392ad0d0, 0x00000000, 10, 0xfe2ce6e0, 0xdfce00bc);
    Turn(x, 58, 0x392ad0d0, 0xdfce00bc, 0x474a9c8c, 0x1e77fa61, 0x00000000, 15, 0xa3014314, 0x36594b14);
    Turn(x, 59, 0x1e77fa61, 0x36594b14, 0xdfce00bc, 0x474a9c8c, 0x00000000, 21, 0x4e0811a1, 0x30130182);
    Shifts4(60);
    Turn(x, 60, 0x474a9c8c, 0x30130182, 0x36594b14, 0xdfce00bc, 0x00000000, 6, 0xf7537e82, 0x7246fad3);
    Turn(x, 61, 0xdfce00bc, 0x7246fad3, 0x30130182, 0x36594b14, 0x00000000, 10, 0xbd3af235, 0x6e10a476);
    Turn(x, 62, 0x36594b14, 0x6e10a476, 0x7246fad3, 0x30130182, 0x00000000, 15, 0x2ad7d2bb, 0xff4ea3eb);
    Turn(x, 63, 0x30130182, 0xff4ea3eb, 0x6e10a476, 0x7246fad3, 0x00000000, 21, 0xeb86d391, 0x14e45506);
  }

  lemma Abc1(x: seq<Word>)
    requires OneBlock(x, 0x80636261, 0x00000018)
    requires Steps(INIT, x, 0) == State(0x67452301, 0xefcdab89, 0x98badcfe, 0x10325476)
    ensures Steps(INIT, x, 16) == State(0xdda9b9a6, 0x72aff2e0, 0xe396856b, 0xa1051895)
  {
    hide Steps, K, S, T;
    Words1();
    Table1();
    Table2();
    Shifts1(0);
    Turn(x, 0, 0x67452301, 0xefcdab89, 0x98badcfe, 0x10325476, 0x80636261, 7, 0xd76aa478, 0xd6d117b4);
    Turn(x, 1, 0x10325476, 0xd6d117b4, 0xefcdab89, 0x98badcfe, 0x00000000, 12, 0xe8c7b756, 0x344a8432);
    Turn(x, 2, 0x98badcfe, 0x344a8432, 0xd6d117b4, 0xefcdab89, 0x00000000, 17, 0x242070db, 0x2f6fbd72);
    Turn(x, 3, 0xefcdab89, 0x2f6fbd72, 0x344a8432, 0xd6d117b4, 0x00000000, 22, 0xc1bdceee, 0x7ad956f2);
    Shifts1(4);
    Turn(x, 4, 0xd6d117b4, 0x7ad956f2, 0x2f6fbd72, 0x344a8432, 0x00000000, 7, 0xf57c0faf, 0xc73741ef);
    Turn(x, 5, 0x344a8432, 0xc73741ef, 0x7ad956f2, 0x2f6fbd72, 0x00000000, 12, 0x4787c62a, 0x8bac3051);
    Turn(x, 6, 0x2f6fbd72, 0x8bac3051, 0xc73741ef, 0x7ad956f2, 0x00000000, 17, 0xa8304613, 0x207dc67b);
    Turn(x, 7, 0x7ad956f2, 0x207dc67b, 0x8bac3051, 0xc73741ef, 0x00000000, 22, 0xfd469501, 0x928d99f6);
    Shifts1(8);
    Turn(x, 8, 0xc73741ef, 0x928d99f6, 0x207dc67b, 0x8bac3051, 0x00000000, 7, 0x698098d8, 0x854b3712);
    Turn(x, 9, 0x8bac3051, 0x854b3712, 0x928d99f6, 0x207dc67b, 0x00000000, 12, 0x8b44f7af, 0x74e2f284);
    Turn(x, 10, 0x207dc67b, 0x74e2f284, 0x854b3712, 0x928d99f6, 0x00000000, 17, 0xffff5bb1, 0x3020401c);
    Turn(x, 11, 0x928d99f6, 0x3020401c, 0x74e2f284, 0x854b3712, 0x00000000, 22, 0x895cd7be, 0x5ed49596);
    Shifts1(12);
    Turn(x, 12, 0x854b3712, 0x5ed49596, 0x3020401c, 0x74e2f284, 0x00000000, 7, 0x6b901122, 0xdda9b9a6);
    Turn(x, 13, 0x74e2f284, 0xdda9b9a6, 0x5ed49596, 0x3020401c, 0x00000000, 12, 0xfd987193, 0xa1051895);
    Turn(x, 14, 0x3020401c, 0xa1051895, 0xdda9b9a6, 0x5ed49596, 0x00000018, 17, 0xa679438e, 0xe396856b);
    Turn(x, 15, 0x5ed49596, 0xe396856b, 0xa1051895, 0xdda9b9a6, 0x00000000, 22, 0x49b40821, 0x72aff2e0);
  }

  lemma Abc2(x: seq<Word>)
    requires OneBlock(x, 0x80636261, 0x00000018)
    requires Steps(INIT, x, 16) == State(0xdda9b9a6, 0x72aff2e0, 0xe396856b, 0xa1051895)
    ensures Steps(INIT, x, 32) == State(0x790a77fb, 0x726342d3, 0xa62884aa, 0x9f47e4f8)
  {
    hide Steps, K, S, T;
    Words2();
    Table3();
    Table4();
    Shifts2(16);
    Turn(x, 16, 0xdda9b9a6, 0x72aff2e0, 0xe396856b, 0xa1051895, 0x00000000, 5, 0xf61e2562, 0x3e9e9126);
    Turn(x, 17, 0xa1051895, 0x3e9e9126, 0x72aff2e0, 0xe396856b, 0x00000000, 9, 0xc040b340, 0x4a1d804e);
    Turn(x, 18, 0xe396856b, 0x4a1d804e, 0x3e9e9126, 0x72aff2e0, 0x00000000, 14, 0x265e5a51, 0xe25e1652);
    Turn(x, 19, 0x72aff2e0, 0xe25e1652, 0x4a1d804e, 0x3e9e9126, 0x80636261, 20, 0xe9b6c7aa, 0xb5b204e4);
    Shifts2(20);
    Turn(x, 20, 0x3e9e9126, 0xb5b204e4, 0xe25e1652, 0x4a1d804e, 0x00000000, 5, 0xd62f105d, 0x59a8ffda);
    Turn(x, 21, 0x4a1d804e, 0x59a8ffda, 0xb5b204e4, 0xe25e1652, 0x00000000, 9, 0x02441453, 0x6d002f1e);
    Turn(x, 22, 0xe25e1652, 0x6d002f1e, 0x59a8ffda, 0xb5b204e4, 0x00000000, 14, 0xd8a1e681, 0xabfc7920);
    Turn(x, 23, 0xb5b204e4, 0xabfc7920, 0x6d002f1e, 0x59a8ffda, 0x00000000, 20, 0xe7d3fbc8, 0x47092c07);
    Shifts2(24);
    Turn(x, 24, 0x59a8ffda, 0x47092c07, 0xabfc7920, 0x6d002f1e, 0x00000000, 5, 0x21e1cde6, 0xb7f268cf);
    Turn(x, 25, 0x6d002f1e, 0xb7f268cf, 0x47092c07, 0xabfc7920, 0x00000018, 9, 0xc33707d6, 0x09388eff);
    Turn(x, 26, 0xabfc7920, 0x09388eff, 0xb7f268cf, 0x47092c07, 0x00000000, 14, 0xf4d50d87, 0xfe1623b1);
    Turn(x, 27, 0x47092c07, 0xfe1623b1, 0x09388eff, 0xb7f268cf, 0x00000000, 20, 0x455a14ed, 0x786acb8f);
    Shifts2(28);
    Turn(x, 28, 0xb7f268cf, 0x786acb8f, 0xfe1623b1, 0x09388eff, 0x00000000, 5, 0xa9e3e905, 0x790a77fb);
    Turn(x, 29, 0x09388eff, 0x790a77fb, 0x786acb8f, 0xfe1623b1, 0x00000000, 9, 0xfcefa3f8, 0x9f47e4f8);
    Turn(x, 30, 0xfe1623b1, 0x9f47e4f8, 0x790a77fb, 0x786acb8f, 0x00000000, 14, 0x676f02d9, 0xa62884aa);
    Turn(x, 31, 0x786acb8f, 0xa62884aa, 0x9f47e4f8, 0x790a77fb, 0x00000000, 20, 0x8d2a4c8a, 0x726342d3);
  }

  lemma Abc3(x: seq<Word>)
    requires OneBlock(x, 0x80636261, 0x00000018)
    requires Steps(INIT, x, 32) == State(0x790a77fb, 0x726342d3, 0xa62884aa, 0x9f47e4f8)
    ensures Steps(INIT, x, 48) == State(0x7f2e507b, 0x7beb9700, 0x8fae6399, 0x99d9679d)
  {
    hide Steps, K, S, T;
    Words3();
    Table5();
    Table6();
    Shifts3(32);
    Turn(x, 32, 0x790a77fb, 0x726342d3, 0xa62884aa, 0x9f47e4f8, 0x00000000, 4, 0xfffa3942, 0xb3707ebf);
    Turn(x, 33, 0x9f47e4f8, 0xb3707ebf, 0x726342d3, 0xa62884aa, 0x00000000, 11, 0x8771f681, 0x60127b2e);
    Turn(x, 34, 0xa62884aa, 0x60127b2e, 0xb3707ebf, 0x726342d3, 0x00000000, 16, 0x6d9d6122, 0x8d212ff5);
    Turn(x, 35, 0x726342d3, 0x8d212ff5, 0x60127b2e, 0xb3707ebf, 0x00000018, 23, 0xfde5380c, 0x3b0875c7);
    Shifts3(36);
    Turn(x, 36, 0xb3707ebf, 0x3b0875c7, 0x8d212ff5, 0x60127b2e, 0x00000000, 4, 0xa4beea44, 0x21b117b9);
    Turn(x, 37, 0x60127b2e, 0x21b117b9, 0x3b0875c7, 0x8d212ff5, 0x00000000, 11, 0x4bdecfa9, 0x6e7429d5);
    Turn(x, 38, 0x8d212ff5, 0x6e7429d5, 0x21b117b9, 0x3b0875c7, 0x00000000, 16, 0xf6bb4b60, 0x3575227e);
    Turn(x, 39, 0x3b0875c7, 0x3575227e, 0x6e7429d5, 0x21b117b9, 0x00000000, 23, 0xbebfbc70, 0x5a2f5ea5);
    Shifts3(40);
    Turn(x, 40, 0x21b117b9, 0x5a2f5ea5, 0x3575227e, 0x6e7429d5, 0x00000000, 4, 0x289b7ec6, 0x11de1779);
    Turn(x, 41, 0x6e7429d5, 0x11de1779, 0x5a2f5ea5, 0x3575227e, 0x80636261, 11, 0xeaa127fa, 0xfadcaa38);
    Turn(x, 42, 0x3575227e, 0xfadcaa38, 0x11de1779, 0x5a2f5ea5, 0x00000000, 16, 0xd4ef3085, 0x31c465ca);
    Turn(x, 43, 0x5a2f5ea5, 0x31c465ca, 0xfadcaa38, 0x11de1779, 0x00000000, 23, 0x04881d05, 0x4c6124f4);
    Shifts3(44);
    Turn(x, 44, 0x11de1779, 0x4c6124f4, 0x31c465ca, 0xfadcaa38, 0x00000000, 4, 0xd9d4d039, 0x7f2e507b);
    Turn(x, 45, 0xfadcaa38, 0x7f2e507b, 0x4c6124f4, 0x31c465ca, 0x00000000, 11, 0xe6db99e5, 0x99d9679d);
    Turn(x, 46, 0x31c465ca, 0x99d9679d, 0x7f2e507b, 0x4c6124f4, 0x00000000, 16, 0x1fa27cf8, 0x8fae6399);
    Turn(x, 47, 0x4c6124f4, 0x8fae6399, 0x99d9679d, 0x7f2e507b, 0x00000000, 23, 0xc4ac5665, 0x7beb9700);
  }

  lemma Abc4(x: seq<Word>)
    requires OneBlock(x, 0x80636261, 0x00000018)
    requires Steps(INIT, x, 48) == State(0x7f2e507b, 0x7beb9700, 0x8fae6399, 0x99d9679d)
    ensures Steps(INIT, x, 64) == State(0x310ade8f, 0xc08226b3, 0xe484b9d8, 0x624d8cb2)
  {
    hide Steps, K, S, T;
    Words4();
    Table7();
    Table8();
    Shifts4(48);
    Turn(x, 48, 0x7f2e507b, 0x7beb9700, 0x8fae6399, 0x99d9679d, 0x80636261, 6, 0xf4292244, 0x7b201df8);
    Turn(x, 49, 0x99d9679d, 0x7b201df8, 0x7beb9700, 0x8fae6399, 0x00000000, 10, 0x432aff97, 0xf4e8e96e);
    Turn(x, 50, 0x8fae6399, 0xf4e8e96e, 0x7b201df8, 0x7beb9700, 0x00000018, 15, 0xab9423a7, 0xb298cefd);
    Turn(x, 51, 0x7beb9700, 0xb298cefd, 0xf4e8e96e, 0x7b201df8, 0x00000000, 21, 0xfc93a039, 0x8bf025c4);
    Shifts4(52);
    Turn(x, 52, 0x7b201df8, 0x8bf025c4, 0xb298cefd, 0xf4e8e96e, 0x00000000, 6, 0x655b59c3, 0x06cc5e8a);
    Turn(x, 53, 0xf4e8e96e, 0x06cc5e8a, 0x8bf025c4, 0xb298cefd, 0x00000000, 10, 0x8f0ccc92, 0x5b0d97aa);
    Turn(x, 54, 0xb298cefd, 0x5b0d97aa, 0x06cc5e8a, 0x8bf025c4, 0x00000000, 15, 0xffeff47d, 0x7d632dd0);
    Turn(x, 55, 0x8bf025c4, 0x7d632dd0, 0x5b0d97aa, 0x06cc5e8a, 0x00000000, 21, 0x85845dd1, 0x3bfa2c27);
    Shifts4(56);
    Turn(x, 56, 0x06cc5e8a, 0x3bfa2c27, 0x7d632dd0, 0x5b0d97aa, 0x00000000, 6, 0x6fa87e4f, 0x7f81cc35);
    Turn(x, 57, 0x5b0d97aa, 0x7f81cc35, 0x3bfa2c27, 0x7d632dd0, 0x00000000, 10, 0xfe2ce6e0, 0x094454ab);
    Turn(x, 58, 0x7d632dd0, 0x094454ab, 0x7f81cc35, 0x3bfa2c27, 0x00000000, 15, 0xa3014314, 0x4f9dbe3f);
    Turn(x, 59, 0x3bfa2c27, 0x4f9dbe3f, 0x094454ab, 0x7f81cc35, 0x00000000, 21, 0x4e0811a1, 0x7327d604);
    Shifts4(60);
    Turn(x, 60, 0x7f81cc35, 0x7327d604, 0x4f9dbe3f, 0x094454ab, 0x00000000, 6, 0xf7537e82, 0x310ade8f);
    Turn(x, 61, 0x094454ab, 0x310ade8f, 0x7327d604, 0x4f9dbe3f, 0x00000000, 10, 0xbd3af235, 0x624d8cb2);
    Turn(x, 62, 0x4f9dbe3f, 0x624d8cb2, 0x310ade8f, 0x7327d604, 0x00000000, 15, 0x2ad7d2bb, 0xe484b9d8);
    Turn(x, 63, 0x7327d604, 0xe484b9d8, 0x624d8cb2, 0x310ade8f, 0x00000000, 21, 0xeb86d391, 0xc08226b3);
  }

  lemma NoBits()
    ensures ByteOf(0, 0) == 0 && ByteOf(0, 1) == 0 && ByteOf(0, 2) == 0 && ByteOf(0, 3) == 0
  {
  }

  lemma ThreeBytes()
    ensures ByteOf(24, 0) == 0x18 && ByteOf(24, 1) == 0 && ByteOf(24, 2) == 0 && ByteOf(24, 3) == 0
  {
  }

  lemma Lengths()
    ensures LengthBytes(0) == [0, 0, 0, 0, 0, 0, 0, 0] && LengthBytes(3) == [0x18, 0, 0, 0, 0, 0, 0, 0]
  {
    NoBits();
    ThreeBytes();
    assert LowBits(0) == 0 && HighBits(0) == 0 && LowBits(3) == 24 && HighBits(3) == 0;
    hide ByteOf;
  }

  /** The bytes of a padded message of less than four bytes. */
  ghost predicate Laid(p: seq<Byte>, first: seq<Byte>, bits: Byte) {
    && |p| == 64 && |first| == 4 && p[..4] == first && p[56] == bits
    && forall k :: 4 <= k < 64 && k != 56 ==> p[k] == 0
  }

  lemma PaddedBytes(m: seq<Byte>, first: seq<Byte>, bits: Byte)
    requires |m| <= 3 && |first| == 4 && first == (m + [0x80] + Zeros(3))[..4]
    requires LengthBytes(|m|) == [bits, 0, 0, 0, 0, 0, 0, 0]
    ensures Laid(Padded(m), first, bits)
  {
    hide LengthBytes;
    var p := Padded(m);
    assert p == m + [0x80] + Zeros(55 - |m|) + [bits, 0, 0, 0, 0, 0, 0, 0];
  }

  lemma LaidWord(p: seq<Byte>, first: seq<Byte>, bits: Byte, i: nat)
    requires Laid(p, first, bits) && 1 <= i < 16
    ensures p[4 * i..4 * i + 4] == [if i == 14 then bits else 0, 0, 0, 0]
  {
  }

  lemma LaidWords(p: seq<Byte>, first: seq<Byte>, bits: Byte)
    requires Laid(p, first, bits)
    ensures OneBlock(Decoded(p), LittleEndian(first), bits as Word)
  {
    forall i | 1 <= i < 16 ensures Decoded(p)[i] == if i == 14 then bits as Word else 0 {
      LaidWord(p, first, bits, i);
      FirstBytes(if i == 14 then bits else 0);
    }
    assert p[0..4] == p[..4];
  }

  lemma FirstBytes(b: Byte)
    ensures LittleEndian([b, 0, 0, 0]) == b as Word
  {
  }

  lemma OneFold(p: seq<Byte>)
    requires |p| == 64
    ensures Fold(p) == Sum(INIT, Steps(INIT, Decoded(p), 64))
  {
    assert p[64..] == [] && p[..0] == [] && p[0..] == p;
    assert Fold(p) == Compress(Fold(p[..0]), p[0..]);
  }

  lemma EmptySteps(x: seq<Word>)
    requires OneBlock(x, 0x00000080, 0x00000000)
    ensures Sum(INIT, Steps(INIT, x, 64)) == State(0xd98c1dd4, 0x04b2008f, 0x980980e9, 0x7e42f8ec)
  {
    assert Steps(INIT, x, 0) == INIT;
    hide Steps;
    Empty1(x);
    Empty2(x);
    Empty3(x);
    Empty4(x);
  }

  lemma EmptyBytes()
    ensures Output(State(0xd98c1dd4, 0x04b2008f, 0x980980e9, 0x7e42f8ec)) == [
      0xd4, 0x1d, 0x8c, 0xd9, 0x8f, 0x00, 0xb2, 0x04,
      0xe9, 0x80, 0x09, 0x98, 0xec, 0xf8, 0x42, 0x7e]
  {
    var s := State(0xd98c1dd4, 0x04b2008f, 0x980980e9, 0x7e42f8ec);
    assert WordByte(s.a, 0) == 0xd4 && WordByte(s.a, 1) == 0x1d && WordByte(s.a, 2) == 0x8c && WordByte(s.a, 3) == 0xd9;
    assert WordByte(s.b, 0) == 0x8f && WordByte(s.b, 1) == 0x00 && WordByte(s.b, 2) == 0xb2 && WordByte(s.b, 3) == 0x04;
    assert WordByte(s.c, 0) == 0xe9 && WordByte(s.c, 1) == 0x80 && WordByte(s.c, 2) == 0x09 && WordByte(s.c, 3) == 0x98;
    assert WordByte(s.d, 0) == 0xec && WordByte(s.d, 1) == 0xf8 && WordByte(s.d, 2) == 0x42 && WordByte(s.d, 3) == 0x7e;
    hide WordByte;
  }

  /** The digest of the empty message, section A.5 of RFC 1321. */
  lemma DigestEmpty()
    ensures Digest(EMPTY) == [
      0xd4, 0x1d, 0x8c, 0xd9, 0x8f, 0x00, 0xb2, 0x04,
      0xe9, 0x80, 0x09, 0x98, 0xec, 0xf8, 0x42, 0x7e]
  {
    Lengths();
    PaddedBytes(EMPTY, [0x80, 0x00, 0x00, 0x00], 0);
    LaidWords(Padded(EMPTY), [0x80, 0x00, 0x00, 0x00], 0);
    assert LittleEndian([0x80, 0x00, 0x00, 0x00]) == 0x00000080;
    OneFold(Padded(EMPTY));
    hide Fold, Padded, Decoded, Output, Steps, Sum, LittleEndian;
    EmptySteps(Decoded(Padded(EMPTY)));
    EmptyBytes();
  }

  lemma AbcSteps(x: seq<Word>)
    requires OneBlock(x, 0x80636261, 0x00000018)
    ensures Sum(INIT, Steps(INIT, x, 64)) == State(0x98500190, 0xb04fd23c, 0x7d3f96d6, 0x727fe128)
  {
    assert Steps(INIT, x, 0) == INIT;
    hide Steps;
    Abc1(x);
    Abc2(x);
    Abc3(x);
    Abc4(x);
  }

  lemma AbcBytes()
    ensures Output(State(0x98500190, 0xb04fd23c, 0x7d3f96d6, 0x727fe128)) == [
      0x90, 0x01, 0x50, 0x98, 0x3c, 0xd2, 0x4f, 0xb0,
      0xd6, 0x96, 0x3f, 0x7d, 0x28, 0xe1, 0x7f, 0x72]
  {
    var s := State(0x98500190, 0xb04fd23c, 0x7d3f96d6, 0x727fe128);
    assert WordByte(s.a, 0) == 0x90 && WordByte(s.a, 1) == 0x01 && WordByte(s.a, 2) == 0x50 && WordByte(s.a, 3) == 0x98;
    assert WordByte(s.b, 0) == 0x3c && WordByte(s.b, 1) == 0xd2 && WordByte(s.b, 2) == 0x4f && WordByte(s.b, 3) == 0xb0;
    assert WordByte(s.c, 0) == 0xd6 && WordByte(s.c, 1) == 0x96 && WordByte(s.c, 2) == 0x3f && WordByte(s.c, 3) == 0x7d;
    assert WordByte(s.d, 0) == 0x28 && WordByte(s.d, 1) == 0xe1 && WordByte(s.d, 2) == 0x7f && WordByte(s.d, 3) == 0x72;
    hide WordByte;
  }

  /** The digest of the message abc, section A.5 of RFC 1321. */
  lemma DigestAbc()
    ensures Digest(ABC) == [
      0x90, 0x01, 0x50, 0x98, 0x3c, 0xd2, 0x4f, 0xb0,
      0xd6, 0x96, 0x3f, 0x7d, 0x28, 0xe1, 0x7f, 0x72]
  {
    Lengths();
    PaddedBytes(ABC, [0x61, 0x62, 0x63, 0x80], 0x18);
    LaidWords(Padded(ABC), [0x61, 0x62, 0x63, 0x80], 0x18);
    assert LittleEndian([0x61, 0x62, 0x63, 0x80]) == 0x80636261;
    OneFold(Padded(ABC));
    hide Fold, Padded, Decoded, Output, Steps, Sum, LittleEndian;
    AbcSteps(Decoded(Padded(ABC)));
    AbcBytes();
  }
}
