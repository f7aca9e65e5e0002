/** MD5: the streaming form of the C code against the one-shot definition of RFC 1321. */
module Md5 {

  type Byte = bv8
  type Word = bv32

  datatype State = State(a: Word, b: Word, c: Word, d: Word)

  // ------------------------------------------------ the four rounds, section 3.4 of RFC 1321

  const TABLE1: seq<Word> := [
    0xd76aa478, 0xe8c7b756, 0x242070db, 0xc1bdceee, 0xf57c0faf, 0x4787c62a, 0xa8304613, 0xfd469501,
    0x698098d8, 0x8b44f7af, 0xffff5bb1, 0x895cd7be, 0x6b901122, 0xfd987193, 0xa679438e, 0x49b40821]
  const TABLE2: seq<Word> := [
    0xf61e2562, 0xc040b340, 0x265e5a51, 0xe9b6c7aa, 0xd62f105d, 0x02441453, 0xd8a1e681, 0xe7d3fbc8,
    0x21e1cde6, 0xc33707d6, 0xf4d50d87, 0x455a14ed, 0xa9e3e905, 0xfcefa3f8, 0x676f02d9, 0x8d2a4c8a]
  const TABLE3: seq<Word> := [
    0xfffa3942, 0x8771f681, 0x6d9d6122, 0xfde5380c, 0xa4beea44, 0x4bdecfa9, 0xf6bb4b60, 0xbebfbc70,
    0x289b7ec6, 0xeaa127fa, 0xd4ef3085, 0x04881d05, 0xd9d4d039, 0xe6db99e5, 0x1fa27cf8, 0xc4ac5665]
  const TABLE4: seq<Word> := [
    0xf4292244, 0x432aff97, 0xab9423a7, 0xfc93a039, 0x655b59c3, 0x8f0ccc92, 0xffeff47d, 0x85845dd1,
    0x6fa87e4f, 0xfe2ce6e0, 0xa3014314, 0x4e0811a1, 0xf7537e82, 0xbd3af235, 0x2ad7d2bb, 0xeb86d391]

  /** The constants T1 to T64, sixteen for each round. */
  function T(i: nat): Word
    requires 1 <= i <= 64
  {
    if i <= 16 then TABLE1[i - 1]
    else if i <= 32 then TABLE2[i - 17]
    else if i <= 48 then TABLE3[i - 33]
    else TABLE4[i - 49]
  }

  const SHIFTS: seq<Word> := [7, 12, 17, 22, 5, 9, 14, 20, 4, 11, 16, 23, 6, 10, 15, 21]

  function F(x: Word, y: Word, z: Word): Word { (x & y) | (!x & z) }
  function G(x: Word, y: Word, z: Word): Word { (x & z) | (y & !z) }
  function H(x: Word, y: Word, z: Word): Word { x ^ y ^ z }
  function I(x: Word, y: Word, z: Word): Word { y ^ (x | !z) }

  function RotateLeft(x: Word, n: Word): Word
    requires n <= 32
  {
    (x << n) | (x >> (32 - n))
  }

  /** The operation of section 3.4: b + ((a + f + x + t) <<< s). */
  function Op(f: Word, a: Word, b: Word, x: Word, s: Word, t: Word): Word
    requires s <= 32
  {
    b + RotateLeft(a + f + x + t, s)
  }

  /** The auxiliary function, the word of the block, and the shift of step i. */
  function Aux(i: nat, x: Word, y: Word, z: Word): Word {
    if i < 16 then F(x, y, z) else if i < 32 then G(x, y, z) else if i < 48 then H(x, y, z) else I(x, y, z)
  }

  function K(i: nat): (k: nat)
    ensures k < 16
  {
    if i < 16 then i else if i < 32 then (5 * i + 1) % 16 else if i < 48 then (3 * i + 5) % 16 else 7 * i % 16
  }

  function S(i: nat): (s: Word)
    requires i < 64
    ensures s <= 32
  {
    SHIFTS[i / 16 * 4 + i % 4]
  }

  /** Step i, after which the registers have changed roles. */
  function Step(s: State, x: seq<Word>, i: nat): State
    requires |x| == 16 && i < 64
  {
    State(s.d, Op(Aux(i, s.b, s.c, s.d), s.a, s.b, x[K(i)], S(i), T(i + 1)), s.b, s.c)
  }

  function Steps(s: State, x: seq<Word>, n: nat): State
    requires |x| == 16 && n <= 64
  {
    if n == 0 then s else Step(Steps(s, x, n - 1), x, n - 1)
  }

  /** SET of the C code. */
  function Set(f: Word, a: Word, b: Word, x: Word, s: Word, t: Word): Word
    requires s <= 32
  {
    RotateLeft(a + f + x + t, s) + b
  }

  lemma SetIsOp(f: Word, a: Word, b: Word, x: Word, s: Word, t: Word)
    requires s <= 32
    ensures Set(f, a, b, x, s, t) == Op(f, a, b, x, s, t)
  {
    hide RotateLeft;
    Commutes(RotateLeft(a + f + x + t, s), b);
  }

  lemma Commutes(x: Word, y: Word)
    ensures x + y == y + x
  {
  }

  /** Four steps with the registers named as the unrolled code names them. */
  function Four(u: State, x: seq<Word>, i: nat): State
    requires |x| == 16 && i + 4 <= 64
  {
    var a := Op(Aux(i, u.b, u.c, u.d), u.a, u.b, x[K(i)], S(i), T(i + 1));
    var d := Op(Aux(i + 1, a, u.b, u.c), u.d, a, x[K(i + 1)], S(i + 1), T(i + 2));
    var c := Op(Aux(i + 2, d, a, u.b), u.c, d, x[K(i + 2)], S(i + 2), T(i + 3));
    var b := Op(Aux(i + 3, c, d, a), u.b, c, x[K(i + 3)], S(i + 3), T(i + 4));
    State(a, b, c, d)
  }

  lemma FourSteps(s: State, x: seq<Word>, i: nat)
    requires |x| == 16 && i + 4 <= 64
    ensures Steps(s, x, i + 4) == Four(Steps(s, x, i), x, i)
  {
    hide Op, Aux, K, S;
    assert Steps(s, x, i + 4) == Step(Steps(s, x, i + 3), x, i + 3);
    assert Steps(s, x, i + 3) == Step(Steps(s, x, i + 2), x, i + 2);
    assert Steps(s, x, i + 2) == Step(Steps(s, x, i + 1), x, i + 1);
    assert Steps(s, x, i + 1) == Step(Steps(s, x, i), x, i);
  }

  /** Four SETs with the auxiliary function, words and shifts of their steps are four steps. */
  lemma SetsAre(u: State, x: seq<Word>, i: nat, a: Word, b: Word, c: Word, d: Word)
    requires |x| == 16 && i + 4 <= 64
    requires a == Set(Aux(i, u.b, u.c, u.d), u.a, u.b, x[K(i)], S(i), T(i + 1))
    requires d == Set(Aux(i + 1, a, u.b, u.c), u.d, a, x[K(i + 1)], S(i + 1), T(i + 2))
    requires c == Set(Aux(i + 2, d, a, u.b), u.c, d, x[K(i + 2)], S(i + 2), T(i + 3))
    requires b == Set(Aux(i + 3, c, d, a), u.b, c, x[K(i + 3)], S(i + 3), T(i + 4))
    ensures State(a, b, c, d) == Four(u, x, i)
  {
    hide Aux, K, S, Set, Op, T;
    SetIsOp(Aux(i, u.b, u.c, u.d), u.a, u.b, x[K(i)], S(i), T(i + 1));
    SetIsOp(Aux(i + 1, a, u.b, u.c), u.d, a, x[K(i + 1)], S(i + 1), T(i + 2));
    SetIsOp(Aux(i + 2, d, a, u.b), u.c, d, x[K(i + 2)], S(i + 2), T(i + 3));
    SetIsOp(Aux(i + 3, c, d, a), u.b, c, x[K(i + 3)], S(i + 3), T(i + 4));
  }

  lemma Words1()
    ensures K(0) == 0 && K(1) == 1 && K(2) == 2 && K(3) == 3 && K(4) == 4 && K(5) == 5 && K(6) == 6 && K(7) == 7
    ensures K(8) == 8 && K(9) == 9 && K(10) == 10 && K(11) == 11 && K(12) == 12 && K(13) == 13 && K(14) == 14
    ensures K(15) == 15
  {
  }

  lemma Shifts1(i: nat)
    requires i % 4 == 0 && 0 <= i < 16
    ensures S(i) == 7 && S(i + 1) == 12 && S(i + 2) == 17 && S(i + 3) == 22
  {
  }

  /** Round 1 of the unrolled code. */
  method Round1(x: seq<Word>, u: State) returns (a: Word, b: Word, c: Word, d: Word)
    requires |x| == 16
    ensures State(a, b, c, d) == Four(Four(Four(Four(u, x, 0), x, 4), x, 8), x, 12)
  {
    hide F, G, H, I, Set, Op, Four, T, K, S;
    Words1();
    ghost var v := u;
    a, b, c, d := u.a, u.b, u.c, u.d;
    a := Set(F(b, c, d), a, b, x[0], 7, T(1));
    d := Set(F(a, b, c), d, a, x[1], 12, T(2));
    c := Set(F(d, a, b), c, d, x[2], 17, T(3));
    b := Set(F(c, d, a), b, c, x[3], 22, T(4));
    Shifts1(0);
    SetsAre(v, x, 0, a, b, c, d);
    v := State(a, b, c, d);
    a := Set(F(b, c, d), a, b, x[4], 7, T(5));
    d := Set(F(a, b, c), d, a, x[5], 12, T(6));
    c := Set(F(d, a, b), c, d, x[6], 17, T(7));
    b := Set(F(c, d, a), b, c, x[7], 22, T(8));
    Shifts1(4);
    SetsAre(v, x, 4, a, b, c, d);
    v := State(a, b, c, d);
    a := Set(F(b, c, d), a, b, x[8], 7, T(9));
    d := Set(F(a, b, c), d, a, x[9], 12, T(10));
    c := Set(F(d, a, b), c, d, x[10], 17, T(11));
    b := Set(F(c, d, a), b, c, x[11], 22, T(12));
    Shifts1(8);
    SetsAre(v, x, 8, a, b, c, d);
    v := State(a, b, c, d);
    a := Set(F(b, c, d), a, b, x[12], 7, T(13));
    d := Set(F(a, b, c), d, a, x[13], 12, T(14));
    c := Set(F(d, a, b), c, d, x[14], 17, T(15));
    b := Set(F(c, d, a), b, c, x[15], 22, T(16));
    Shifts1(12);
    SetsAre(v, x, 12, a, b, c, d);
    v := State(a, b, c, d);
  }

  lemma Words2()
    ensures K(16) == 1 && K(17) == 6 && K(18) == 11 && K(19) == 0 && K(20) == 5 && K(21) == 10 && K(22) == 15
    ensures K(23) == 4
    ensures K(24) == 9 && K(25) == 14 && K(26) == 3 && K(27) == 8 && K(28) == 13 && K(29) == 2 && K(30) == 7
    ensures K(31) == 12
  {
  }

  lemma Shifts2(i: nat)
    requires i % 4 == 0 && 16 <= i < 32
    ensures S(i) == 5 && S(i + 1) == 9 && S(i + 2) == 14 && S(i + 3) == 20
  {
  }

  /** Round 2 of the unrolled code. */
  method Round2(x: seq<Word>, u: State) returns (a: Word, b: Word, c: Word, d: Word)
    requires |x| == 16
    ensures State(a, b, c, d) == Four(Four(Four(Four(u, x, 16), x, 20), x, 24), x, 28)
  {
    hide F, G, H, I, Set, Op, Four, T, K, S;
    Words2();
    ghost var v := u;
    a, b, c, d := u.a, u.b, u.c, u.d;
    a := Set(G(b, c, d), a, b, x[1], 5, T(17));
    d := Set(G(a, b, c), d, a, x[6], 9, T(18));
    c := Set(G(d, a, b), c, d, x[11], 14, T(19));
    b := Set(G(c, d, a), b, c, x[0], 20, T(20));
    Shifts2(16);
    SetsAre(v, x, 16, a, b, c, d);
    v := State(a, b, c, d);
    a := Set(G(b, c, d), a, b, x[5], 5, T(21));
    d := Set(G(a, b, c), d, a, x[10], 9, T(22));
    c := Set(G(d, a, b), c, d, x[15], 14, T(23));
    b := Set(G(c, d, a), b, c, x[4], 20, T(24));
    Shifts2(20);
    SetsAre(v, x, 20, a, b, c, d);
    v := State(a, b, c, d);
    a := Set(G(b, c, d), a, b, x[9], 5, T(25));
    d := Set(G(a, b, c), d, a, x[14], 9, T(26));
    c := Set(G(d, a, b), c, d, x[3], 14, T(27));
    b := Set(G(c, d, a), b, c, x[8], 20, T(28));
    Shifts2(24);
    SetsAre(v, x, 24, a, b, c, d);
    v := State(a, b, c, d);
    a := Set(G(b, c, d), a, b, x[13], 5, T(29));
    d := Set(G(a, b, c), d, a, x[2], 9, T(30));
    c := Set(G(d, a, b), c, d, x[7], 14, T(31));
    b := Set(G(c, d, a), b, c, x[12], 20, T(32));
    Shifts2(28);
    SetsAre(v, x, 28, a, b, c, d);
    v := State(a, b, c, d);
  }

  lemma Words3()
    ensures K(32) == 5 && K(33) == 8 && K(34) == 11 && K(35) == 14 && K(36) == 1 && K(37) == 4 && K(38) == 7
    ensures K(39) == 10
    ensures K(40) == 13 && K(41) == 0 && K(42) == 3 && K(43) == 6 && K(44) == 9 && K(45) == 12 && K(46) == 15
    ensures K(47) == 2
  {
  }

  lemma Shifts3(i: nat)
    requires i % 4 == 0 && 32 <= i < 48
    ensures S(i) == 4 && S(i + 1) == 11 && S(i + 2) == 16 && S(i + 3) == 23
  {
  }

  /** Round 3 of the unrolled code. */
  method Round3(x: seq<Word>, u: State) returns (a: Word, b: Word, c: Word, d: Word)
    requires |x| == 16
    ensures State(a, b, c, d) == Four(Four(Four(Four(u, x, 32), x, 36), x, 40), x, 44)
  {
    hide F, G, H, I, Set, Op, Four, T, K, S;
    Words3();
    ghost var v := u;
    a, b, c, d := u.a, u.b, u.c, u.d;
    a := Set(H(b, c, d), a, b, x[5], 4, T(33));
    d := Set(H(a, b, c), d, a, x[8], 11, T(34));
    c := Set(H(d, a, b), c, d, x[11], 16, T(35));
    b := Set(H(c, d, a), b, c, x[14], 23, T(36));
    Shifts3(32);
    SetsAre(v, x, 32, a, b, c, d);
    v := State(a, b, c, d);
    a := Set(H(b, c, d), a, b, x[1], 4, T(37));
    d := Set(H(a, b, c), d, a, x[4], 11, T(38));
    c := Set(H(d, a, b), c, d, x[7], 16, T(39));
    b := Set(H(c, d, a), b, c, x[10], 23, T(40));
    Shifts3(36);
    SetsAre(v, x, 36, a, b, c, d);
    v := State(a, b, c, d);
    a := Set(H(b, c, d), a, b, x[13], 4, T(41));
    d := Set(H(a, b, c), d, a, x[0], 11, T(42));
    c := Set(H(d, a, b), c, d, x[3], 16, T(43));
    b := Set(H(c, d, a), b, c, x[6], 23, T(44));
    Shifts3(40);
    SetsAre(v, x, 40, a, b, c, d);
    v := State(a, b, c, d);
    a := Set(H(b, c, d), a, b, x[9], 4, T(45));
    d := Set(H(a, b, c), d, a, x[12], 11, T(46));
    c := Set(H(d, a, b), c, d, x[15], 16, T(47));
    b := Set(H(c, d, a), b, c, x[2], 23, T(48));
    Shifts3(44);
    SetsAre(v, x, 44, a, b, c, d);
    v := State(a, b, c, d);
  }

  lemma Words4()
    ensures K(48) == 0 && K(49) == 7 && K(50) == 14 && K(51) == 5 && K(52) == 12 && K(53) == 3 && K(54) == 10
    ensures K(55) == 1
    ensures K(56) == 8 && K(57) == 15 && K(58) == 6 && K(59) == 13 && K(60) == 4 && K(61) == 11 && K(62) == 2
    ensures K(63) == 9
  {
  }

  lemma Shifts4(i: nat)
    requires i % 4 == 0 && 48 <= i < 64
    ensures S(i) == 6 && S(i + 1) == 10 && S(i + 2) == 15 && S(i + 3) == 21
  {
  }

  /** Round 4 of the unrolled code. */
  method Round4(x: seq<Word>, u: State) returns (a: Word, b: Word, c: Word, d: Word)
    requires |x| == 16
    ensures State(a, b, c, d) == Four(Four(Four(Four(u, x, 48), x, 52), x, 56), x, 60)
  {
    hide F, G, H, I, Set, Op, Four, T, K, S;
    Words4();
    ghost var v := u;
    a, b, c, d := u.a, u.b, u.c, u.d;
    a := Set(I(b, c, d), a, b, x[0], 6, T(49));
    d := Set(I(a, b, c), d, a, x[7], 10, T(50));
    c := Set(I(d, a, b), c, d, x[14], 15, T(51));
    b := Set(I(c, d, a), b, c, x[5], 21, T(52));
    Shifts4(48);
    SetsAre(v, x, 48, a, b, c, d);
    v := State(a, b, c, d);
    a := Set(I(b, c, d), a, b, x[12], 6, T(53));
    d := Set(I(a, b, c), d, a, x[3], 10, T(54));
    c := Set(I(d, a, b), c, d, x[10], 15, T(55));
    b := Set(I(c, d, a), b, c, x[1], 21, T(56));
    Shifts4(52);
    SetsAre(v, x, 52, a, b, c, d);
    v := State(a, b, c, d);
    a := Set(I(b, c, d), a, b, x[8], 6, T(57));
    d := Set(I(a, b, c), d, a, x[15], 10, T(58));
    c := Set(I(d, a, b), c, d, x[6], 15, T(59));
    b := Set(I(c, d, a), b, c, x[13], 21, T(60));
    Shifts4(56);
    SetsAre(v, x, 56, a, b, c, d);
    v := State(a, b, c, d);
    a := Set(I(b, c, d), a, b, x[4], 6, T(61));
    d := Set(I(a, b, c), d, a, x[11], 10, T(62));
    c := Set(I(d, a, b), c, d, x[2], 15, T(63));
    b := Set(I(c, d, a), b, c, x[9], 21, T(64));
    Shifts4(60);
    SetsAre(v, x, 60, a, b, c, d);
    v := State(a, b, c, d);
  }

  // ---------------------------------------------------------------- one block of 64 bytes

  /** A word of four bytes, the low-order one first (section 2 of RFC 1321). */
  function LittleEndian(p: seq<Byte>): Word
    requires |p| == 4
  {
    (p[0] as Word) | (p[1] as Word << 8) | (p[2] as Word << 16) | (p[3] as Word << 24)
  }

  /** The word as the C code sums it up. */
  function Summed(b0: Byte, b1: Byte, b2: Byte, b3: Byte): Word {
    (b0 as Word) + (b1 as Word << 8) + (b2 as Word << 16) + (b3 as Word << 24)
  }

  lemma SummedIs(b0: Byte, b1: Byte, b2: Byte, b3: Byte)
    ensures Summed(b0, b1, b2, b3) == LittleEndian([b0, b1, b2, b3])
  {
  }

  function Decoded(block: seq<Byte>): (x: seq<Word>)
    requires |block| == 64
    ensures |x| == 16
  {
    seq(16, i requires 0 <= i < 16 => LittleEndian(block[4 * i..4 * i + 4]))
  }

  /** The 64 steps on a block, and the registers added in again. */
  function Compress(s: State, block: seq<Byte>): State
    requires |block| == 64
  {
    Sum(s, Steps(s, Decoded(block), 64))
  }

  function Sum(s: State, u: State): State {
    State(s.a + u.a, s.b + u.b, s.c + u.c, s.d + u.d)
  }

  method Decode(block: seq<Byte>) returns (x: seq<Word>)
    requires |block| == 64
    ensures x == Decoded(block)
  {
    hide LittleEndian, Summed;
    x := [];
    var i := 0;
    while i < 16
      invariant i <= 16 && x == Decoded(block)[..i]
    {
      SummedIs(block[4 * i], block[4 * i + 1], block[4 * i + 2], block[4 * i + 3]);
      assert block[4 * i..4 * i + 4] == [block[4 * i], block[4 * i + 1], block[4 * i + 2], block[4 * i + 3]];
      x := x + [Summed(block[4 * i], block[4 * i + 1], block[4 * i + 2], block[4 * i + 3])];
      i := i + 1;
    }
  }

  lemma SixteenSteps(u: State, x: seq<Word>, i: nat)
    requires |x| == 16 && i + 16 <= 64
    ensures Steps(u, x, i + 16) == Four(Four(Four(Four(Steps(u, x, i), x, i), x, i + 4), x, i + 8), x, i + 12)
  {
    hide Four, Steps;
    FourSteps(u, x, i);
    FourSteps(u, x, i + 4);
    FourSteps(u, x, i + 8);
    FourSteps(u, x, i + 12);
  }

  lemma NoSteps(u: State, x: seq<Word>)
    requires |x| == 16
    ensures Steps(u, x, 0) == u
  {
  }

  /** The unrolled code performs the 64 indexed steps. */
  method Unrolled(x: seq<Word>, u: State) returns (v: State)
    requires |x| == 16
    ensures v == Steps(u, x, 64)
  {
    hide Four, Steps;
    NoSteps(u, x);
    SixteenSteps(u, x, 0);
    SixteenSteps(u, x, 16);
    SixteenSteps(u, x, 32);
    SixteenSteps(u, x, 48);
    var a, b, c, d := Round1(x, u);
    a, b, c, d := Round2(x, State(a, b, c, d));
    a, b, c, d := Round3(x, State(a, b, c, d));
    a, b, c, d := Round4(x, State(a, b, c, d));
    v := State(a, b, c, d);
  }

  // ------------------------------------------------------------------- whole messages

  const INIT := State(0x67452301, 0xefcdab89, 0x98badcfe, 0x10325476)

  /** The registers after all the blocks of s, in their order. */
  function Fold(s: seq<Byte>): State
    requires |s| % 64 == 0
  {
    if s == [] then INIT else Compress(Fold(s[..|s| - 64]), s[|s| - 64..])
  }

  const TWO32: nat := 0x1_0000_0000

  /** The low-order and the high-order word of the bit length of n bytes, modulo 2^64. */
  function LowBits(n: nat): nat { 8 * n % TWO32 }
  function HighBits(n: nat): nat { 8 * n / TWO32 % TWO32 }

  /** The bytes of a 32-bit number, the low-order one first. */
  function ByteOf(n: nat, i: nat): Byte
    requires i < 4
  {
    (n / (if i == 0 then 1 else if i == 1 then 0x100 else if i == 2 then 0x10000 else 0x1000000) % 0x100) as Byte
  }

  function LengthBytes(n: nat): (s: seq<Byte>)
    ensures |s| == 8
  {
    seq(8, i requires 0 <= i < 8 => ByteOf(if i < 4 then LowBits(n) else HighBits(n), i % 4))
  }

  /** The number of zero bytes of the padding: the least that leaves 8 bytes short of a block. */
  function ZeroCount(n: nat): (k: nat)
    ensures k < 64 && (n + 1 + k) % 64 == 56
  {
    (119 - n % 64) % 64
  }

  function Zeros(k: nat): (s: seq<Byte>)
    ensures |s| == k
  {
    seq(k, i => 0)
  }

  /** Sections 3.1 and 3.2 of RFC 1321: a one bit, zero bits, and the length in bits. */
  function Padded(m: seq<Byte>): (s: seq<Byte>)
    ensures |s| % 64 == 0
  {
    m + [0x80] + Zeros(ZeroCount(|m|)) + LengthBytes(|m|)
  }

  function WordByte(w: Word, i: nat): Byte
    requires i < 4
  {
    var n: Word := if i == 0 then 0 else if i == 1 then 8 else if i == 2 then 16 else 24;
    ((w >> n) & 0xff) as Byte
  }

  function WordAt(s: State, i: nat): Word
    requires i < 4
  {
    if i == 0 then s.a else if i == 1 then s.b else if i == 2 then s.c else s.d
  }

  /** Section 3.5: the registers from A to D, each with its low-order byte first. */
  function Output(s: State): (d: seq<Byte>)
    ensures |d| == 16
  {
    seq(16, i requires 0 <= i < 16 => WordByte(WordAt(s, i / 4), i % 4))
  }

  /** The MD5 digest of a message, in one shot. */
  function Digest(m: seq<Byte>): (d: seq<Byte>)
    ensures |d| == 16
  {
    Output(Fold(Padded(m)))
  }

  lemma FoldMore(s: seq<Byte>, n: nat)
    requires n % 64 == 0 && n + 64 <= |s|
    ensures Fold(s[..n + 64]) == Compress(Fold(s[..n]), s[n..n + 64])
  {
    var t := s[..n + 64];
    assert t[..|t| - 64] == s[..n] && t[|t| - 64..] == s[n..n + 64];
  }

  /** The 64-bit counter in two words: the shift by 29 and the carry. */
  lemma CountMore(n: nat, m: nat)
    ensures LowBits(n + m) == (LowBits(n) + LowBits(m)) % TWO32
    ensures var carry := if (LowBits(n) + LowBits(m)) % TWO32 < LowBits(m) then 1 else 0;
      HighBits(n + m) == (HighBits(n) + m / 0x2000_0000 + carry) % TWO32
  {
    BitsAre(n);
    BitsAre(m);
    BitsAre(n + m);
    var a, r, b, q := n / 0x2000_0000, n % 0x2000_0000, m / 0x2000_0000, m % 0x2000_0000;
    if r + q < 0x2000_0000 {
      Quotient(n + m, a + b, r + q);
    } else {
      Quotient(n + m, a + b + 1, r + q - 0x2000_0000);
    }
    ModSum(a, b + if r + q < 0x2000_0000 then 0 else 1);
  }

  lemma Quotient(x: nat, q: nat, r: nat)
    requires r < 0x2000_0000 && x == q * 0x2000_0000 + r
    ensures x / 0x2000_0000 == q && x % 0x2000_0000 == r
  {
  }

  lemma BitsAre(n: nat)
    ensures LowBits(n) == 8 * (n % 0x2000_0000) && HighBits(n) == n / 0x2000_0000 % TWO32
  {
    var q, r := n / 0x2000_0000, n % 0x2000_0000;
    assert 8 * n == q * TWO32 + 8 * r;
    assert 8 * n / TWO32 == q && 8 * n % TWO32 == 8 * r;
  }

  lemma ModSum(a: nat, b: nat)
    ensures (a % TWO32 + b) % TWO32 == (a + b) % TWO32
  {
    var q := a / TWO32;
    assert a + b == a % TWO32 + b + q * TWO32;
    ModShift(a % TWO32 + b, q);
  }

  lemma {:induction false} ModShift(x: nat, q: nat)
    ensures (x + q * TWO32) % TWO32 == x % TWO32
  {
    if q > 0 {
      ModShift(x, q - 1);
      assert x + q * TWO32 == x + (q - 1) * TWO32 + TWO32;
    }
  }

  /** The place in the block, as the count tells it. */
  lemma OffsetIs(n: nat)
    ensures LowBits(n) / 8 % 64 == n % 64 && (55 - LowBits(n) / 8) % 64 == (55 - n) % 64
  {
    BitsAre(n);
    var q, r := n / 0x2000_0000, n % 0x2000_0000;
    Mod64(r, q * 0x80_0000);
    Mod64(55 - n, q * 0x80_0000);
  }

  lemma Mod64(x: int, k: int)
    ensures (x + 64 * k) % 64 == x % 64
  {
  }

  // -------------------------------------------------------------------- the streaming form

  /** The bytes in complete blocks among n. */
  function Whole(n: nat): (w: nat)
    ensures w <= n < w + 64 && w % 64 == 0
  {
    n - n % 64
  }

  /** The 64-byte pad of the C code. */
  const PAD: seq<Byte> := [0x80] + Zeros(63)

  lemma WholeIs(n: nat, w: nat)
    requires w % 64 == 0 && w <= n < w + 64
    ensures Whole(n) == w
  {
  }

  lemma PadPrefix(n: nat)
    requires 1 <= n <= 64
    ensures |PAD| == 64 && PAD[..n] == [0x80] + Zeros(n - 1)
  {
  }

  lemma FilledBlock(m: seq<Byte>, data: seq<Byte>, copy: nat)
    requires copy <= |data| && |m| % 64 + copy == 64
    ensures var w, total := Whole(|m|), m + data;
      w + 64 == |m| + copy <= |total| && total[w..w + 64] == m[w..] + data[..copy]
  {
  }

  /** The registers hold the blocks of the first n bytes of total. */
  ghost predicate Hashed(s: State, total: seq<Byte>, n: nat) {
    n <= |total| && n % 64 == 0 && s == Fold(total[..n])
  }

  lemma NextHashed(s: State, total: seq<Byte>, data: seq<Byte>, base: nat, p: nat)
    requires Hashed(s, total, base + p) && base + |data| == |total| && total[base..] == data && p + 64 <= |data|
    ensures Hashed(Compress(s, data[p..p + 64]), total, base + (p + 64))
  {
    hide Fold, Compress;
    FoldMore(total, base + p);
    assert data[p..p + 64] == total[base + p..base + p + 64];
    assert base + p + 64 == base + (p + 64);
  }

  class Md5State {
    var count0: nat
    var count1: nat
    var abcd: State
    const buf: array<Byte>
    ghost var message: seq<Byte>

    /** What the state holds of the message so far: its length in bits, its complete blocks
        hashed, and the rest of it in buf. */
    ghost predicate Valid()
      reads this, buf
    {
      && buf.Length == 64
      && count0 == LowBits(|message|) && count1 == HighBits(|message|)
      && abcd == Fold(message[..Whole(|message|)])
      && buf[..|message| % 64] == message[Whole(|message|)..]
    }

    /** md5_init */
    constructor ()
      ensures Valid() && message == [] && fresh(buf)
    {
      buf := new Byte[64](_ => 0);
      count0, count1, abcd, message := 0, 0, INIT, [];
    }

    /** md5_process */
    method Process(block: seq<Byte>)
      requires |block| == 64
      modifies `abcd
      ensures abcd == Compress(old(abcd), block)
    {
      hide Steps, Decoded, Sum;
      var x := Decode(block);
      var u := Unrolled(x, abcd);
      abcd := Sum(abcd, u);
    }

    /** memcpy(buf + offset, data, |data|) */
    method Copy(offset: nat, data: seq<Byte>)
      requires offset + |data| <= buf.Length
      modifies buf
      ensures buf[..offset + |data|] == old(buf[..offset]) + data
    {
      forall i | 0 <= i < |data| { buf[offset + i] := data[i]; }
    }

    /** The message length, in bits modulo 2^64. */
    method Count(nbytes: nat, ghost n: nat)
      requires nbytes < 0x8000_0000 && count0 == LowBits(n) && count1 == HighBits(n)
      modifies `count0, `count1
      ensures count0 == LowBits(n + nbytes) && count1 == HighBits(n + nbytes)
    {
      CountMore(n, nbytes);
      var nbits := 8 * nbytes % TWO32;
      count1 := (count1 + nbytes / 0x2000_0000) % TWO32;
      count0 := (count0 + nbits) % TWO32;
      if count0 < nbits { count1 := (count1 + 1) % TWO32; }
      ModSum(HighBits(n) + nbytes / 0x2000_0000, 1);
    }

    /** The full blocks of data from place p on. */
    method ProcessBlocks(data: seq<Byte>, p0: nat, ghost total: seq<Byte>, ghost base: nat) returns (p: nat)
      requires p0 <= |data| && base + |data| == |total| && total[base..] == data && Hashed(abcd, total, base + p0)
      modifies `abcd
      ensures p <= |data| < p + 64 && Hashed(abcd, total, base + p)
    {
      hide Hashed;
      p := p0;
      var left := |data| - p;
      while left >= 64
        invariant p <= |data| && left == |data| - p && Hashed(abcd, total, base + p)
      {
        NextHashed(abcd, total, data, base, p);
        Process(data[p..p + 64]);
        p := p + 64;
        left := left - 64;
      }
    }

    /** The initial partial block, if there is one: what is missing from it is copied from the
        data, and the block is processed once it is full. */
    method FillBlock(data: seq<Byte>, offset: nat, ghost m: seq<Byte>) returns (p: nat, full: bool)
      requires buf.Length == 64 && data != [] && offset == |m| % 64
      requires abcd == Fold(m[..Whole(|m|)]) && buf[..offset] == m[Whole(|m|)..]
      modifies buf, `abcd
      ensures full <==> offset == 0 || offset + |data| >= 64
      ensures full ==> p <= |data| && (|m| + p) % 64 == 0 && abcd == Fold((m + data)[..|m| + p])
      ensures !full ==> abcd == old(abcd) && buf[..offset + |data|] == m[Whole(|m|)..] + data
    {
      hide Fold;
      p, full := 0, true;
      ghost var total := m + data;
      assert total[..Whole(|m|)] == m[..Whole(|m|)];
      assert offset == 0 ==> Whole(|m|) == |m| + p;
      if offset != 0 {
        var copy := if offset + |data| > 64 then 64 - offset else |data|;
        Copy(offset, data[..copy]);
        if offset + copy < 64 {
          assert data[..copy] == data;
          return 0, false;
        }
        p := copy;
        FoldMore(total, Whole(|m|));
        assert buf[..] == buf[..offset + copy];
        FilledBlock(m, data, copy);
        Process(buf[..]);
      }
    }

    /** md5_append: the message grows by the data, however it is cut. What is in the buffer and the data together are
        no more than an int can count. */
    method Append(data: seq<Byte>)
      requires Valid() && |message| % 64 + |data| < 0x8000_0000
      modifies this, buf
      ensures Valid() && message == old(message) + data
    {
      hide Fold, LowBits, HighBits;
      ghost var m := message;
      OffsetIs(|m|);
      var offset := count0 / 8 % 64;
      if |data| <= 0 {
        assert m + data == m;
        return;
      }
      Count(|data|, |m|);
      ghost var total := m + data;
      var p, full := FillBlock(data, offset, m);
      message := total;
      if !full {
        WholeIs(|total|, Whole(|m|));
        assert total[..Whole(|m|)] == m[..Whole(|m|)] && total[Whole(|m|)..] == m[Whole(|m|)..] + data;
        return;
      }
      p := ProcessBlocks(data, p, total, |m|);
      WholeIs(|total|, |m| + p);
      if p < |data| { Copy(0, data[p..]); }
      assert total[|m| + p..] == data[p..];
    }

    /** The length of the message, low-order byte first. */
    method SaveLength() returns (data: seq<Byte>)
      requires Valid()
      ensures data == LengthBytes(|message|)
    {
      hide ByteOf;
      data := [];
      var i := 0;
      while i < 8
        invariant i <= 8 && data == LengthBytes(|message|)[..i]
      {
        data := data + [ByteOf(if i < 4 then count0 else count1, i % 4)];
        i := i + 1;
      }
    }

    /** md5_finish: the digest of the whole message. */
    method Finish() returns (digest: seq<Byte>)
      requires Valid()
      modifies this, buf
      ensures digest == Digest(old(message))
    {
      hide Fold, LengthBytes, WordByte, WordAt, LowBits, HighBits, Zeros;
      ghost var m := message;
      var data := SaveLength();
      OffsetIs(|m|);
      var n := (55 - count0 / 8) % 64 + 1;
      PadPrefix(n);
      Append(PAD[..n]);
      Append(data);
      assert m + ([0x80] + Zeros(n - 1)) + data == m + [0x80] + Zeros(n - 1) + data;
      FinishPad(m, n - 1);
      digest := [];
      var i := 0;
      while i < 16
        invariant i <= 16 && digest == Output(abcd)[..i]
      {
        digest := digest + [WordByte(WordAt(abcd, i / 4), i % 4)];
        i := i + 1;
      }
      assert message[..|message|] == message;
    }
  }

  lemma PadCount(n: nat)
    ensures (55 - n) % 64 == ZeroCount(n)
  {
    var q, r := n / 64, n % 64;
    Mod64(55 - r, -q);
    assert 55 - n == 55 - r + 64 * -q;
  }

  lemma FinishPad(m: seq<Byte>, k: nat)
    requires k == (55 - |m|) % 64
    ensures k == ZeroCount(|m|) && Whole(|Padded(m)|) == |Padded(m)|
    ensures Padded(m) == m + [0x80] + Zeros(k) + LengthBytes(|m|)
  {
    PadCount(|m|);
    hide ZeroCount;
  }
}
