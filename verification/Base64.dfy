/** Base64 as in section 4 of RFC 4648, read with the line breaks that section 6.8 of RFC 2045 allows. */
module Base64 {
  import opened Wrappers

  type byte = x: int | 0 <= x < 256

  type sextet = x: int | 0 <= x < 64

  const PAD: char := '='

  const NUL: char := '\0'

  // ------------------------------------------------------------------------- the alphabet

  function Letter(v: sextet): char {
    if v < 26 then 'A' + v as char
    else if v < 52 then 'a' + (v - 26) as char
    else if v < 62 then '0' + (v - 52) as char
    else if v == 62 then '+'
    else '/'
  }

  function Value(c: char): Option<sextet> {
    if 'A' <= c <= 'Z' then Some(c as int - 'A' as int)
    else if 'a' <= c <= 'z' then Some(26 + (c as int - 'a' as int))
    else if '0' <= c <= '9' then Some(52 + (c as int - '0' as int))
    else if c == '+' then Some(62)
    else if c == '/' then Some(63)
    else None
  }

  /** The two directions of the alphabet are inverse to each other. */
  lemma LetterValue(v: sextet, c: char)
    ensures Value(c) == Some(v) <==> c == Letter(v)
  {
  }

  /** Table 1 of the RFC. */
  lemma LetterIs(v: sextet)
    ensures v < 26 ==> Letter(v) == "ABCDEFGHIJKLMNOPQRSTUVWXYZ"[v]
    ensures 26 <= v < 52 ==> Letter(v) == "abcdefghijklmnopqrstuvwxyz"[v - 26]
    ensures 52 <= v < 62 ==> Letter(v) == "0123456789"[v - 52]
    ensures v >= 62 ==> Letter(v) == "+/"[v - 62]
  {
  }

  predicate IsLineBreak(c: char) {
    c == '\r' || c == '\n'
  }

  // ------------------------------------------------------------------------------ encoding

  /** Three bytes as four letters: x >> 2, ((x << 4) & 0x30) | (y >> 4), ((y << 2) & 0x3c) | (z >> 6), z & 0x3f. */
  function Group(x: byte, y: byte, z: byte): string {
    [Letter(x / 4), Letter(x % 4 * 16 + y / 16), Letter(y % 16 * 4 + z / 64), Letter(z % 64)]
  }

  /** One or two bytes at the end. */
  function Fragment(data: seq<byte>): string
    requires 0 < |data| < 3
  {
    if |data| == 1 then [Letter(data[0] / 4), Letter(data[0] % 4 * 16), PAD, PAD]
    else [Letter(data[0] / 4), Letter(data[0] % 4 * 16 + data[1] / 16), Letter(data[1] % 16 * 4), PAD]
  }

  function Encoded(data: seq<byte>): string {
    if |data| >= 3 then Group(data[0], data[1], data[2]) + Encoded(data[3..])
    else if |data| > 0 then Fragment(data)
    else ""
  }

  lemma EncodedFrom(data: seq<byte>, i: nat)
    requires i <= |data|
    ensures |data| - i >= 3 ==> Encoded(data[i..]) == Group(data[i], data[i + 1], data[i + 2]) + Encoded(data[i + 3..])
    ensures 0 < |data| - i < 3 ==> Encoded(data[i..]) == Fragment(data[i..])
    ensures i == |data| ==> Encoded(data[i..]) == ""
  {
    if |data| - i >= 3 {
      assert data[i..][3..] == data[i + 3..];
    }
  }

  method ToBase64(data: seq<byte>) returns (out: string)
    ensures out == Encoded(data)
  {
    hide Letter, Encoded;
    out := "";
    assert data[0..] == data;
    var i := 0;
    while |data| - i >= 3
      invariant i <= |data|
      invariant out + Encoded(data[i..]) == Encoded(data)
    {
      ghost var was := out;
      EncodedFrom(data, i);
      out := out + [Letter(data[i] / 4)];
      out := out + [Letter(data[i] % 4 * 16 + data[i + 1] / 16)];
      out := out + [Letter(data[i + 1] % 16 * 4 + data[i + 2] / 64)];
      out := out + [Letter(data[i + 2] % 64)];
      assert out == was + Group(data[i], data[i + 1], data[i + 2]);
      assert was + Group(data[i], data[i + 1], data[i + 2]) + Encoded(data[i + 3..]) ==
             was + (Group(data[i], data[i + 1], data[i + 2]) + Encoded(data[i + 3..]));
      i := i + 3;
    }
    EncodedFrom(data, i);
    if i < |data| {
      ghost var was := out;
      out := out + [Letter(data[i] / 4)];
      var fragment := data[i] % 4 * 16;
      if |data| - i > 1 {
        fragment := fragment + data[i + 1] / 16;
      }
      out := out + [Letter(fragment)];
      out := out + [if |data| - i < 2 then PAD else Letter(data[i + 1] % 16 * 4)];
      out := out + [PAD];
      assert out == was + Fragment(data[i..]);
    }
  }

  // ------------------------------------------------------------- what the RFC says it should be

  /** The byte at i, or zero bits after the end. */
  function ByteAt(data: seq<byte>, i: nat): byte {
    if i < |data| then data[i] else 0
  }

  /** Three eight-bit groups from i on, as one number of 24 bits. */
  function Number256(data: seq<byte>, i: nat): int {
    65536 * ByteAt(data, i) + 256 * ByteAt(data, i + 1) + ByteAt(data, i + 2)
  }

  function Digit(text: string, i: nat): int {
    if i < |text| && Value(text[i]).Some? then Value(text[i]).value else 0
  }

  /** Four six-bit groups from i on, as one number of 24 bits. */
  function Number64(text: string, i: nat): int {
    262144 * Digit(text, i) + 4096 * Digit(text, i + 1) + 64 * Digit(text, i + 2) + Digit(text, i + 3)
  }

  /** The bytes the last group lacks. */
  function Missing(data: seq<byte>): int {
    (3 - |data| % 3) % 3
  }

  /** Section 4: each three bytes are the 24 bits of four letters; where bytes are missing in the last group, zero bits
      stand for them and '=' for the letters that hold none of the data. */
  ghost predicate IsBase64(text: string, data: seq<byte>) {
    && |text| == (|data| + 2) / 3 * 4
    && (forall g: nat :: 3 * g < |data| ==> Number64(text, 4 * g) == Number256(data, 3 * g))
    && (forall i: nat :: i < |text| ==> text[i] == PAD || Value(text[i]).Some?)
    && (forall i: nat :: i < |text| ==> (text[i] == PAD <==> i >= |text| - Missing(data)))
  }

  lemma GroupNumber(x: byte, y: byte, z: byte)
    ensures Number64(Group(x, y, z), 0) == 65536 * x + 256 * y + z
  {
    LettersNumber(x / 4, x % 4 * 16 + y / 16, y % 16 * 4 + z / 64, z % 64);
  }

  lemma LettersNumber(a: sextet, b: sextet, c: sextet, d: sextet)
    ensures Number64([Letter(a), Letter(b), Letter(c), Letter(d)], 0) == 262144 * a + 4096 * b + 64 * c + d
  {
    LetterValue(a, Letter(a));
    LetterValue(b, Letter(b));
    LetterValue(c, Letter(c));
    LetterValue(d, Letter(d));
  }

  lemma GroupsLater(group: string, rest: string, data: seq<byte>, g: nat)
    requires |group| == 4 && |data| >= 3 && 0 < g && 3 * g < |data| && IsBase64(rest, data[3..])
    ensures Number64(group + rest, 4 * g) == Number256(data, 3 * g)
  {
    assert Number64(rest, 4 * (g - 1)) == Number256(data[3..], 3 * (g - 1));
  }

  lemma NumberFirst(group: string, rest: string)
    requires |group| == 4
    ensures Number64(group + rest, 0) == Number64(group, 0)
  {
  }

  predicate AllLetters(group: string) {
    forall k :: 0 <= k < |group| ==> group[k] != PAD && Value(group[k]).Some?
  }

  lemma GroupFirst(group: string, rest: string, data: seq<byte>)
    requires |data| >= 3 && |group| == 4 && AllLetters(group) && IsBase64(rest, data[3..])
    requires Number64(group, 0) == Number256(data, 0)
    ensures IsBase64(group + rest, data)
  {
    var text := group + rest;
    forall g: nat | 3 * g < |data|
      ensures Number64(text, 4 * g) == Number256(data, 3 * g)
    {
      if g > 0 {
        GroupsLater(group, rest, data, g);
      } else {
        NumberFirst(group, rest);
      }
    }
    forall i: nat | i < |text|
      ensures (text[i] == PAD || Value(text[i]).Some?) && (text[i] == PAD <==> i >= |text| - Missing(data))
    {
      PadsLater(group, rest, data, i);
    }
  }

  lemma MissingLater(rest: string, data: seq<byte>)
    requires |data| >= 3 && |rest| == (|data| - 1) / 3 * 4
    ensures Missing(data[3..]) == Missing(data) <= |rest|
  {
  }

  lemma PadsLater(group: string, rest: string, data: seq<byte>, i: nat)
    requires |data| >= 3 && |group| == 4 && AllLetters(group) && IsBase64(rest, data[3..]) && i < 4 + |rest|
    ensures
      var text := group + rest;
      (text[i] == PAD || Value(text[i]).Some?) && (text[i] == PAD <==> i >= |text| - Missing(data))
  {
    hide Number64, Number256, Value, Missing;
    MissingLater(rest, data);
    if i >= 4 {
      assert (group + rest)[i] == rest[i - 4];
    } else {
      assert (group + rest)[i] == group[i];
    }
  }

  lemma {:induction false} EncodedIsBase64(data: seq<byte>)
    ensures IsBase64(Encoded(data), data)
  {
    hide IsBase64, Number64, Letter, Value;
    if |data| >= 3 {
      EncodedIsBase64(data[3..]);
      GroupNumber(data[0], data[1], data[2]);
      GroupLetters(data[0], data[1], data[2]);
      GroupFirst(Group(data[0], data[1], data[2]), Encoded(data[3..]), data);
    } else if |data| > 0 {
      FragmentIsBase64(data);
    } else {
      EmptyIsBase64();
    }
  }

  lemma EmptyIsBase64()
    ensures IsBase64("", [])
  {
  }

  lemma GroupLetters(x: byte, y: byte, z: byte)
    ensures |Group(x, y, z)| == 4 && AllLetters(Group(x, y, z))
  {
  }

  lemma FragmentIsBase64(data: seq<byte>)
    requires 0 < |data| < 3
    ensures IsBase64(Fragment(data), data)
  {
    if |data| == 2 {
      FragmentNumber(data[0] / 4, data[0] % 4 * 16 + data[1] / 16, data[1] % 16 * 4, Fragment(data));
    } else {
      FragmentNumber(data[0] / 4, data[0] % 4 * 16, 0, Fragment(data));
    }
  }

  lemma FragmentNumber(a: sextet, b: sextet, c: sextet, text: string)
    requires |text| == 4 && text[0] == Letter(a) && text[1] == Letter(b) && text[3] == PAD
    requires text[2] == Letter(c) || (text[2] == PAD && c == 0)
    ensures Number64(text, 0) == 262144 * a + 4096 * b + 64 * c
    ensures forall k :: 0 <= k < 2 ==> text[k] != PAD && Value(text[k]).Some?
    ensures text[2] == PAD || Value(text[2]).Some?
    ensures Letter(c) != PAD
  {
    LetterValue(a, text[0]);
    LetterValue(b, text[1]);
    LetterValue(c, Letter(c));
  }

  // ------------------------------------------------------------------------------ decoding

  /** The variables of the reading loop: the bytes so far, the last value read, the bits of the group, how many. */
  datatype Reader = Reader(out: seq<byte>, tmp: sextet, bits: nat, n: nat)

  const START := Reader([], 0, 0, 0)

  ghost predicate Ready(r: Reader) {
    r.n < 4 && r.bits < [1, 64, 4096, 262144][r.n]
  }

  /** A character that is neither a line break nor padding. One outside the alphabet counts as the last that was
      in it. */
  function Read(r: Reader, c: char): (q: Reader)
    requires Ready(r)
    ensures Ready(q)
  {
    var tmp: sextet := if Value(c).Some? then Value(c).value else r.tmp;
    var bits := r.bits * 64 + tmp;
    if r.n + 1 < 4 then Reader(r.out, tmp, bits, r.n + 1)
    else Reader(r.out + [bits / 65536 % 256, bits / 256 % 256, bits % 256], tmp, 0, 0)
  }

  /** The bytes of a group that is cut short by padding. */
  function Padded(r: Reader): seq<byte> {
    if r.n == 3 then r.out + [r.bits / 1024 % 256, r.bits / 4 % 256]
    else if r.n == 2 then r.out + [r.bits / 16 % 256]
    else r.out
  }

  function Decoded(r: Reader, text: string): seq<byte>
    requires Ready(r)
    decreases text
  {
    if text == "" then r.out
    else if IsLineBreak(text[0]) then Decoded(r, text[1..])
    else if text[0] == PAD then Padded(r)
    else Decoded(Read(r, text[0]), text[1..])
  }

  method FromBase64(text: string) returns (out: seq<byte>)
    requires NUL !in text
    ensures out == Decoded(START, text)
  {
    var c := 0;
    var tmp: sextet, bits: nat, n: nat := 0, 0, 0;
    out := [];
    while c < |text|
      invariant c <= |text| && Ready(Reader(out, tmp, bits, n))
      invariant Decoded(Reader(out, tmp, bits, n), text[c..]) == Decoded(START, text)
      decreases |text| - c
    {
      ghost var r := Reader(out, tmp, bits, n);
      ghost var rest := text[c..];
      assert rest[1..] == text[c + 1..];
      if 'A' <= text[c] <= 'Z' {
        tmp := text[c] as int - 'A' as int;
      } else if 'a' <= text[c] <= 'z' {
        tmp := 26 + (text[c] as int - 'a' as int);
      } else if '0' <= text[c] <= '9' {
        tmp := 52 + (text[c] as int - '0' as int);
      } else if text[c] == '+' {
        tmp := 62;
      } else if text[c] == '/' {
        tmp := 63;
      } else if text[c] == '\r' || text[c] == '\n' {
        c := c + 1;
        continue;
      } else if text[c] == PAD {
        if n == 3 {
          out := out + [bits / 1024 % 256];
          out := out + [bits / 4 % 256];
        } else if n == 2 {
          out := out + [bits / 16 % 256];
        }
        assert out == Padded(r);
        return;
      }
      bits := bits * 64 + tmp;
      n := n + 1;
      if n == 4 {
        out := out + [bits / 65536 % 256];
        out := out + [bits / 256 % 256];
        out := out + [bits % 256];
        bits, n := 0, 0;
      }
      assert Reader(out, tmp, bits, n) == Read(r, rest[0]);
      c := c + 1;
    }
  }

  // ---------------------------------------------------------------------------- round trip

  function Stripped(text: string): string {
    if text == "" then "" else (if IsLineBreak(text[0]) then "" else [text[0]]) + Stripped(text[1..])
  }

  /** Line breaks anywhere in the text do not change what is read. */
  lemma {:induction false} LineBreaksIgnored(r: Reader, text: string)
    requires Ready(r)
    ensures Decoded(r, text) == Decoded(r, Stripped(text))
    decreases text
  {
    if text != "" {
      var rest := Stripped(text[1..]);
      assert ([text[0]] + rest)[1..] == rest && "" + rest == rest;
      if IsLineBreak(text[0]) {
        LineBreaksIgnored(r, text[1..]);
      } else if text[0] != PAD {
        LineBreaksIgnored(Read(r, text[0]), text[1..]);
      }
    }
  }

  lemma {:induction false} StrippedOne(a: string, c: char, b: string)
    requires IsLineBreak(c)
    ensures Stripped(a + [c] + b) == Stripped(a + b)
    decreases a
  {
    if a == "" {
      assert "" + [c] + b == [c] + b && ([c] + b)[1..] == b && "" + b == b && "" + Stripped(b) == Stripped(b);
    } else {
      StrippedOne(a[1..], c, b);
      assert (a + [c] + b)[1..] == a[1..] + [c] + b && (a + b)[1..] == a[1..] + b;
    }
  }

  /** A line break put in anywhere changes nothing. */
  lemma LineBreakInserted(a: string, c: char, b: string)
    requires IsLineBreak(c)
    ensures Decoded(START, a + [c] + b) == Decoded(START, a + b)
  {
    StrippedOne(a, c, b);
    LineBreaksIgnored(START, a + [c] + b);
    LineBreaksIgnored(START, a + b);
  }

  lemma LetterRead(r: Reader, v: sextet, rest: string)
    requires Ready(r)
    ensures Value(Letter(v)) == Some(v) && Decoded(r, [Letter(v)] + rest) == Decoded(Read(r, Letter(v)), rest)
  {
    assert ([Letter(v)] + rest)[1..] == rest;
  }

  lemma GroupBytes(x: byte, y: byte, z: byte)
    ensures
      var bits := ((x / 4 * 64 + (x % 4 * 16 + y / 16)) * 64 + (y % 16 * 4 + z / 64)) * 64 + z % 64;
      bits / 65536 % 256 == x && bits / 256 % 256 == y && bits % 256 == z
  {
    var bits := ((x / 4 * 64 + (x % 4 * 16 + y / 16)) * 64 + (y % 16 * 4 + z / 64)) * 64 + z % 64;
    assert bits == 65536 * x + 256 * y + z;
    NumberBytes(x, y, z);
  }

  lemma NumberBytes(x: byte, y: byte, z: byte)
    ensures
      var bits := 65536 * x + 256 * y + z;
      bits / 65536 % 256 == x && bits / 256 % 256 == y && bits % 256 == z
  {
  }

  lemma FragmentBytes(x: byte, y: byte)
    ensures (x / 4 * 64 + x % 4 * 16) / 16 % 256 == x
    ensures
      var bits := (x / 4 * 64 + (x % 4 * 16 + y / 16)) * 64 + y % 16 * 4;
      bits / 1024 % 256 == x && bits / 4 % 256 == y
  {
  }

  /** Four letters give their three bytes back. */
  lemma GroupRead(out: seq<byte>, tmp: sextet, x: byte, y: byte, z: byte, rest: string)
    ensures Decoded(Reader(out, tmp, 0, 0), Group(x, y, z) + rest) ==
            Decoded(Reader(out + [x, y, z], z % 64, 0, 0), rest)
  {
    hide Decoded, Letter, Value, IsLineBreak;
    var a, b, c, d := x / 4, x % 4 * 16 + y / 16, y % 16 * 4 + z / 64, z % 64;
    var r0 := Reader(out, tmp, 0, 0);
    assert Group(x, y, z) + rest == [Letter(a)] + ([Letter(b)] + ([Letter(c)] + ([Letter(d)] + rest)));
    LetterRead(r0, a, [Letter(b)] + ([Letter(c)] + ([Letter(d)] + rest)));
    var r1 := Read(r0, Letter(a));
    LetterRead(r1, b, [Letter(c)] + ([Letter(d)] + rest));
    var r2 := Read(r1, Letter(b));
    LetterRead(r2, c, [Letter(d)] + rest);
    var r3 := Read(r2, Letter(c));
    LetterRead(r3, d, rest);
    GroupBytes(x, y, z);
  }

  lemma FragmentRead(out: seq<byte>, tmp: sextet, data: seq<byte>)
    requires 0 < |data| < 3
    ensures Decoded(Reader(out, tmp, 0, 0), Fragment(data)) == out + data
  {
    hide Decoded, Letter, Value, IsLineBreak;
    var r0 := Reader(out, tmp, 0, 0);
    var a := data[0] / 4;
    var b := if |data| == 1 then data[0] % 4 * 16 else data[0] % 4 * 16 + data[1] / 16;
    var end := if |data| == 1 then [PAD, PAD] else [Letter(data[1] % 16 * 4), PAD];
    assert Fragment(data) == [Letter(a)] + ([Letter(b)] + end);
    LetterRead(r0, a, [Letter(b)] + end);
    var r1 := Read(r0, Letter(a));
    LetterRead(r1, b, end);
    var r2 := Read(r1, Letter(b));
    if |data| == 1 {
      PadRead(r2, [PAD]);
      FragmentBytes(data[0], 0);
      assert [PAD] + [PAD] == end;
      assert data == [data[0]];
    } else {
      var c := data[1] % 16 * 4;
      assert end == [Letter(c)] + [PAD];
      LetterRead(r2, c, [PAD]);
      assert [PAD] + [] == [PAD];
      PadRead(Read(r2, Letter(c)), []);
      FragmentBytes(data[0], data[1]);
      assert data == [data[0], data[1]];
    }
  }

  lemma PadRead(r: Reader, rest: string)
    requires Ready(r)
    ensures Decoded(r, [PAD] + rest) == Padded(r)
  {
  }

  lemma {:induction false} EncodedRead(out: seq<byte>, tmp: sextet, data: seq<byte>)
    ensures Decoded(Reader(out, tmp, 0, 0), Encoded(data)) == out + data
    decreases data
  {
    if |data| >= 3 {
      GroupRead(out, tmp, data[0], data[1], data[2], Encoded(data[3..]));
      EncodedRead(out + data[..3], data[2] % 64, data[3..]);
      assert out + data[..3] == out + [data[0], data[1], data[2]];
      assert out + data[..3] + data[3..] == out + data;
    } else if |data| > 0 {
      FragmentRead(out, tmp, data);
    }
  }

  /** Whatever line breaks an encoding is cut up with, the bytes come back. */
  lemma RoundTrip(data: seq<byte>, text: string)
    requires Stripped(text) == Encoded(data)
    ensures Decoded(START, text) == data
  {
    LineBreaksIgnored(START, text);
    EncodedRead([], 0, data);
  }

  // ------------------------------------------------------------------------ what else is read

  /** Padding ends the text: what follows it is not read. */
  lemma PaddingEnds(r: Reader, rest: string)
    requires Ready(r)
    ensures Decoded(r, [PAD] + rest) == Decoded(r, [PAD])
  {
    PadRead(r, rest);
    PadRead(r, []);
    assert [PAD] + [] == [PAD];
  }

  /** A character that is no letter, line break or padding is read as the letter before it, or as 'A'. */
  lemma StrayRead(r: Reader, c: char, rest: string)
    requires Ready(r) && Value(c).None? && !IsLineBreak(c) && c != PAD
    ensures Decoded(r, [c] + rest) == Decoded(r, [Letter(r.tmp)] + rest)
  {
    StrayIs(r, c);
    LetterRead(r, r.tmp, rest);
    assert ([c] + rest)[1..] == rest;
    hide Letter, Value, Read;
  }

  lemma StrayIs(r: Reader, c: char)
    requires Ready(r) && Value(c).None?
    ensures Read(r, c) == Read(r, Letter(r.tmp))
  {
    LetterValue(r.tmp, Letter(r.tmp));
    hide Letter;
  }

  /** Letters that no padding follows are dropped unless they are four. */
  lemma Unfinished(r: Reader)
    requires Ready(r)
    ensures Decoded(r, "") == r.out && START.tmp == 0 && Letter(START.tmp) == 'A'
  {
  }

  /** The test vectors of section 10 of the RFC. */
  lemma Vectors()
    ensures Encoded([0x66]) == "Zg==" && Encoded([0x66, 0x6F]) == "Zm8=" && Encoded([0x66, 0x6F, 0x6F]) == "Zm9v"
  {
    assert Encoded([0x66, 0x6F, 0x6F][3..]) == "";
  }
}
