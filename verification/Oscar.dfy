/** The OSCAR codec: packets whose nested lengths are patched in after their contents, and the
    readers that take them apart. */
module Oscar {
  import opened Wrappers
  import opened Flap

  // ----------------------------------------------------------------------------- numbers

  /** A guint16 in network order; the value is cut to 16 bits. */
  function Be16(v: int): (s: seq<Byte>)
    ensures |s| == 2 && Word(s[0], s[1]) == v % 0x10000
  {
    TwoBytes(v);
    [(v / 0x100 % 0x100) as Byte, (v % 0x100) as Byte]
  }

  lemma TwoBytes(v: int)
    ensures v / 0x100 % 0x100 * 256 + v % 0x100 == v % 0x10000
  {
    var h, l := v / 0x100, v % 0x100;
    var a, b := h / 0x100, h % 0x100;
    assert v == 0x100 * h + l && h == 0x100 * a + b;
    assert v == 0x10000 * a + (0x100 * b + l);
  }

  /** A guint32 in network order. */
  function Be32(v: int): (s: seq<Byte>)
    ensures |s| == 4
  {
    Be16(v / 0x10000) + Be16(v)
  }

  function Long(s: seq<Byte>): nat
    requires |s| == 4
  {
    Word(s[0], s[1]) * 0x10000 + Word(s[2], s[3])
  }

  lemma LongBe32(v: nat)
    requires v < 0x1_0000_0000
    ensures Long(Be32(v)) == v
  {
    hide Word;
    var hi, lo := Be16(v / 0x10000), Be16(v);
    assert Be32(v)[0] == hi[0] && Be32(v)[1] == hi[1] && Be32(v)[2] == lo[0] && Be32(v)[3] == lo[1];
    assert v / 0x10000 % 0x10000 == v / 0x10000;
  }

  // ------------------------------------------------------------------ what is on the wire

  datatype Item = Item(kind: nat, data: seq<Byte>)

  /** A type-length-value triple, the length cut to 16 bits. */
  function Tlv(i: Item): (s: seq<Byte>)
    ensures |s| == 4 + |i.data|
  {
    Be16(i.kind) + Be16(|i.data|) + i.data
  }

  function Tlvs(items: seq<Item>): seq<Byte> {
    if items == [] then [] else Tlv(items[0]) + Tlvs(items[1..])
  }

  function FlapHead(channel: Byte, seqNo: int): (s: seq<Byte>)
    ensures |s| == 4
  {
    [MAGIC, channel] + Be16(seqNo)
  }

  function FlapFrame(channel: Byte, seqNo: int, payload: seq<Byte>): (s: seq<Byte>)
    ensures |s| == 6 + |payload|
  {
    FlapHead(channel, seqNo) + Be16(|payload|) + payload
  }

  function SnacHead(kind: int, seqNo: int): (s: seq<Byte>)
    ensures |s| == 10
  {
    Be32(kind) + Be16(0) + Be32(seqNo)
  }

  const ZEROS: seq<Byte> := [0, 0, 0, 0]

  /** The TLV 2 of a message, with the text in a TLV 0x0101 inside it. */
  function MsgItem(msg: seq<Byte>): (i: Item)
    ensures |i.data| == |msg| + 13
  {
    Item(0x0002, Tlv(Item(0x0501, [0])) + Tlv(Item(0x0101, ZEROS + msg)))
  }

  function MsgHead(uin: seq<Byte>): (s: seq<Byte>)
    ensures |s| == 11 + |uin|
  {
    Be32(0) + Be32(0) + Be16(1) + [(|uin| % 0x100) as Byte] + uin
  }

  function MsgBody(uin: seq<Byte>, msg: seq<Byte>): (s: seq<Byte>)
    ensures |s| == |uin| + |msg| + 28
  {
    MsgHead(uin) + Tlv(MsgItem(msg))
  }

  // ---------------------------------------------------------------------------- reading

  datatype Read = Short | Read(item: Item, rest: seq<Byte>)

  /** read_tlv on the bytes s between buf and end. */
  function ReadTlv(s: seq<Byte>): (r: Read)
    ensures r.Read? ==> |r.rest| <= |s| - 4
  {
    if |s| < 4 then Short
    else
      var len := Word(s[2], s[3]);
      if |s| - 4 < len then Short else Read(Item(Word(s[0], s[1]), s[4..4 + len]), s[4 + len..])
  }

  /** The data of the first item of that type. */
  function Scan(s: seq<Byte>, kind: nat): Option<seq<Byte>>
    decreases |s|
  {
    match ReadTlv(s)
    case Short => None
    case Read(i, rest) => if i.kind == kind then Some(i.data) else Scan(rest, kind)
  }

  /** scan_tlv: the loop reads item after item of s from pos on. */
  method ScanTlv(s: seq<Byte>, kind: nat) returns (r: Option<seq<Byte>>)
    ensures r == Scan(s, kind)
  {
    var rest := s;
    while true
      invariant Scan(s, kind) == Scan(rest, kind)
      decreases |rest|
    {
      var t := ReadTlv(rest);
      if t.Short? { return None; }
      if t.item.kind == kind { return Some(t.item.data); }
      rest := t.rest;
    }
  }

  /** Every item that repeated read_tlv finds, and whether the bytes ended with the last of them. */
  function ReadAll(s: seq<Byte>): (seq<Item>, bool)
    decreases |s|
  {
    match ReadTlv(s)
    case Short => ([], s == [])
    case Read(i, rest) => var r := ReadAll(rest); ([i] + r.0, r.1)
  }

  /** decode_snac: the type and what follows the header. */
  function DecodeSnac(s: seq<Byte>): Snac {
    if |s| < 10 then NoSnac else Snac(Long(s[..4]), s[10..])
  }

  datatype Snac = NoSnac | Snac(kind: nat, body: seq<Byte>)

  // ------------------------------------------------------------------------ round trips

  lemma TlvParts(i: Item, t: seq<Byte>)
    ensures var s := Tlv(i) + t;
      && Word(s[0], s[1]) == i.kind % 0x10000 && Word(s[2], s[3]) == |i.data| % 0x10000
      && s[4..] == i.data + t
  {
    hide Be16, Word;
    var a, b := Be16(i.kind), Be16(|i.data|);
    var s := Tlv(i) + t;
    assert s == a + b + i.data + t;
    assert s[0] == a[0] && s[1] == a[1] && s[2] == b[0] && s[3] == b[1];
  }

  /** read_tlv takes as many bytes as the length, cut to 16 bits, says. */
  lemma ReadTlvIs(i: Item, t: seq<Byte>)
    ensures var n := |i.data| % 0x10000;
      ReadTlv(Tlv(i) + t) == Read(Item(i.kind % 0x10000, i.data[..n]), (i.data + t)[n..])
  {
    TlvParts(i, t);
    hide Word, Tlv;
    var s, n := Tlv(i) + t, |i.data| % 0x10000;
    assert s[4..4 + n] == s[4..][..n] == i.data[..n];
    assert s[4 + n..] == s[4..][n..];
  }

  /** One item is read back exactly if its length fits 16 bits. */
  lemma ReadTlvBack(i: Item, t: seq<Byte>)
    requires i.kind < 0x10000
    ensures ReadTlv(Tlv(i) + t) == Read(i, t) <==> |i.data| < 0x10000
  {
    hide ReadTlv, Tlv;
    ReadTlvIs(i, t);
    var n := |i.data| % 0x10000;
    if |i.data| < 0x10000 {
      assert i.data[..n] == i.data && (i.data + t)[n..] == t;
    } else {
      assert |i.data[..n]| < |i.data|;
    }
  }

  ghost predicate Fit(items: seq<Item>) {
    forall i :: 0 <= i < |items| ==> items[i].kind < 0x10000 && |items[i].data| < 0x10000
  }

  /** A run of write_tlv calls read by repeated read_tlv gives the items back, and uses every byte. */
  lemma {:induction false} ReadAllBack(items: seq<Item>)
    requires Fit(items)
    ensures ReadAll(Tlvs(items)) == (items, true)
  {
    if items != [] {
      ReadTlvBack(items[0], Tlvs(items[1..]));
      ReadAllBack(items[1..]);
      assert [items[0]] + items[1..] == items;
    }
  }

  /** decode_flap gives the channel and payload back and consumes the whole packet, exactly if the payload fits. */
  lemma DecodeFlapBack(channel: Byte, seqNo: int, payload: seq<Byte>, t: seq<Byte>)
    ensures
      var f := FlapFrame(channel, seqNo, payload);
      Decode(f + t) == Frame(Packet(channel, payload), |f|)
      <==> |payload| < 0x10000
  {
    FlapParts(channel, seqNo, payload, t);
    hide Word, FlapFrame;
    var s, n := FlapFrame(channel, seqNo, payload) + t, |payload| % 0x10000;
    assert s[6..6 + n] == s[6..][..n] == payload[..n];
    if |payload| < 0x10000 { assert payload[..n] == payload; } else { assert |payload[..n]| < |payload|; }
  }

  lemma FlapParts(channel: Byte, seqNo: int, payload: seq<Byte>, t: seq<Byte>)
    ensures var s := FlapFrame(channel, seqNo, payload) + t;
      s[0] == MAGIC && s[1] == channel && Word(s[4], s[5]) == |payload| % 0x10000 && s[6..] == payload + t
  {
    hide Be16, Word;
    var h, b := FlapHead(channel, seqNo), Be16(|payload|);
    var s := FlapFrame(channel, seqNo, payload) + t;
    assert s == h + b + payload + t;
    assert s[0] == h[0] && s[1] == h[1] && s[4] == b[0] && s[5] == b[1];
  }

  /** decode_snac gives the type back, and the body. */
  lemma DecodeSnacBack(kind: nat, seqNo: int, body: seq<Byte>)
    requires kind < 0x1_0000_0000
    ensures DecodeSnac(SnacHead(kind, seqNo) + body) == Snac(kind, body)
  {
    hide Be16, Be32, Long;
    LongBe32(kind);
    var h := SnacHead(kind, seqNo);
    var s := h + body;
    assert s[..4] == h[..4] == Be32(kind) && s[10..] == body;
  }

  /** What the receiver of a message does: scan for TLV 2, and in it for TLV 0x0101. */
  function MsgText(s: seq<Byte>): Option<seq<Byte>> {
    match Scan(s, 0x0002)
    case None => None
    case Some(inner) => Scan(inner, 0x0101)
  }

  lemma InnerScan(msg: seq<Byte>)
    requires |msg| + 4 < 0x10000
    ensures Scan(Tlv(Item(0x0501, [0])) + Tlv(Item(0x0101, ZEROS + msg)), 0x0101) == Some(ZEROS + msg)
  {
    var first, second := Item(0x0501, [0]), Item(0x0101, ZEROS + msg);
    ReadTlvBack(first, Tlv(second));
    ReadTlvBack(second, []);
    assert Tlv(second) + [] == Tlv(second);
  }

  lemma MsgItemLength(msg: seq<Byte>)
    ensures |MsgItem(msg).data| == |msg| + 13
  {
  }

  /** The text comes back, after four zero bytes, exactly if the outer length fits 16 bits. */
  lemma MsgTextBack(msg: seq<Byte>)
    ensures MsgText(Tlv(MsgItem(msg))) == Some(ZEROS + msg) <==> |msg| + 13 < 0x10000
  {
    var i := MsgItem(msg);
    MsgItemLength(msg);
    assert Tlv(i) + [] == Tlv(i);
    ReadTlvBack(i, []);
    if |msg| + 13 < 0x10000 {
      InnerScan(msg);
    } else {
      TooLong(msg);
    }
  }

  /** A length that was cut leaves less than the message. */
  lemma TooLong(msg: seq<Byte>)
    requires |msg| + 13 >= 0x10000
    ensures MsgText(Tlv(MsgItem(msg))) != Some(ZEROS + msg)
  {
    MsgItemLength(msg);
    hide Tlv, ReadTlv, MsgItem;
    var i, n := MsgItem(msg), (|msg| + 13) % 0x10000;
    assert Tlv(i) + [] == Tlv(i);
    ReadTlvIs(i, []);
    MsgItemKind(msg);
    assert Scan(Tlv(i), 0x0002) == Some(i.data[..n]);
    ScanShorter(i.data[..n], 0x0101);
    assert n < |msg| + 4;
  }

  lemma MsgItemKind(msg: seq<Byte>)
    ensures MsgItem(msg).kind == 0x0002
  {
  }

  /** What a scan finds is shorter than what it scans. */
  lemma {:induction false} ScanShorter(s: seq<Byte>, kind: nat)
    ensures Scan(s, kind).Some? ==> |Scan(s, kind).value| <= |s| - 4
    decreases |s|
  {
    var r := ReadTlv(s);
    if r.Read? && r.item.kind != kind { ScanShorter(r.rest, kind); }
  }

  // ---------------------------------------------------------------------------- writing

  /** after is before with s written at place at. */
  ghost predicate Wrote(before: seq<Byte>, after: seq<Byte>, at: nat, s: seq<Byte>) {
    at + |s| <= |before| && after == before[..at] + s + before[at + |s|..]
  }

  lemma WroteMore(a: seq<Byte>, b: seq<Byte>, c: seq<Byte>, at: nat, s: seq<Byte>, t: seq<Byte>)
    requires Wrote(a, b, at, s) && Wrote(b, c, at + |s|, t)
    ensures Wrote(a, c, at, s + t)
  {
    var n := at + |s|;
    assert b[..n] == a[..at] + s;
    assert b[n + |t|..] == a[n + |t|..] by { Beyond(a, b, at, s, n + |t|); }
  }

  lemma Beyond(a: seq<Byte>, b: seq<Byte>, at: nat, s: seq<Byte>, k: nat)
    requires Wrote(a, b, at, s) && at + |s| <= k <= |a|
    ensures |b| == |a| && b[k..] == a[k..]
  {
    forall i | k <= i < |a| ensures b[i] == a[i] {}
  }

  /** A gap of two bytes was left between head and tail, and has been filled in afterwards. */
  lemma WrotePatched(a: seq<Byte>, b: seq<Byte>, c: seq<Byte>, d: seq<Byte>, at: nat, head: seq<Byte>, len: seq<Byte>,
        tail: seq<Byte>)
    requires |len| == 2 && Wrote(a, b, at, head) && Wrote(b, c, at + |head| + 2, tail) && Wrote(c, d, at + |head|, len)
    ensures Wrote(a, d, at, head + len + tail)
  {
    var n := at + |head|;
    assert b[..n] == a[..at] + head;
    assert c[..n] == b[..n] && c[n + 2..n + 2 + |tail|] == tail;
    Beyond(a, b, at, head, n + 2 + |tail|);
    Beyond(b, c, n + 2, tail, n + 2 + |tail|);
    assert c[n + 2..] == tail + a[n + 2 + |tail|..];
    assert d == c[..n] + len + c[n + 2..];
  }

  /** A buffer to be sent, and the sequence counters, which live as long as the program. */
  class Encoder {
    const buf: array<Byte>
    var flapSeq: nat
    var snacSeq: nat

    ghost function Content(): seq<Byte>
      reads buf
    {
      buf[..]
    }

    constructor (size: nat)
      ensures flapSeq == snacSeq == 0 && buf.Length == size && fresh(buf)
    {
      buf := new Byte[size](_ => 0);
      flapSeq, snacSeq := 0, 0;
    }

    method WriteB(at: nat, value: Byte) returns (next: nat)
      requires at < buf.Length
      modifies buf
      ensures next == at + 1 && Wrote(old(Content()), Content(), at, [value])
    {
      buf[at] := value;
      next := at + 1;
    }

    method WriteW(at: nat, value: int) returns (next: nat)
      requires at + 2 <= buf.Length
      modifies buf
      ensures next == at + 2 && Wrote(old(Content()), Content(), at, Be16(value))
    {
      var w := Be16(value);
      buf[at] := w[0];
      buf[at + 1] := w[1];
      next := at + 2;
    }

    method WriteL(at: nat, value: int) returns (next: nat)
      requires at + 4 <= buf.Length
      modifies buf
      ensures next == at + 4 && Wrote(old(Content()), Content(), at, Be32(value))
    {
      ghost var a := Content();
      next := WriteW(at, value / 0x10000);
      ghost var b := Content();
      next := WriteW(next, value);
      WroteMore(a, b, Content(), at, Be16(value / 0x10000), Be16(value));
    }

    method WriteS(at: nat, data: seq<Byte>) returns (next: nat)
      requires at + |data| <= buf.Length
      modifies buf
      ensures next == at + |data| && Wrote(old(Content()), Content(), at, data)
    {
      forall i | 0 <= i < |data| { buf[at + i] := data[i]; }
      next := at + |data|;
    }

    /** The type is written; the length is left for TlvEnd. */
    method TlvBegin(at: nat, kind: int) returns (next: nat)
      requires at + 4 <= buf.Length
      modifies buf
      ensures next == at + 4 && Wrote(old(Content()), Content(), at, Be16(kind))
    {
      next := WriteW(at, kind);
      next := next + 2;
    }

    /** The length of what was written from start on is put in front of it. */
    method TlvEnd(at: nat, start: nat) returns (next: nat)
      requires 2 <= start <= at && start <= buf.Length
      modifies buf
      ensures next == at && Wrote(old(Content()), Content(), start - 2, Be16(at - start))
    {
      var unused := WriteW(start - 2, at - start);
      next := at;
    }

    method WriteTlv(at: nat, kind: nat, data: seq<Byte>) returns (next: nat)
      requires at + 4 + |data| <= buf.Length
      modifies buf
      ensures next == at + 4 + |data| && Wrote(old(Content()), Content(), at, Tlv(Item(kind, data)))
    {
      hide Be16, Wrote;
      ghost var a := Content();
      next := WriteW(at, kind);
      ghost var b := Content();
      next := WriteW(next, |data|);
      ghost var c := Content();
      WroteMore(a, b, c, at, Be16(kind), Be16(|data|));
      next := WriteS(next, data);
      WroteMore(a, c, Content(), at, Be16(kind) + Be16(|data|), data);
    }

    method FlapBegin(at: nat, channel: Byte) returns (next: nat)
      requires at + 6 <= buf.Length
      modifies buf, `flapSeq
      ensures flapSeq == old(flapSeq) + 1
      ensures next == at + 6 && Wrote(old(Content()), Content(), at, FlapHead(channel, flapSeq))
    {
      ghost var a := Content();
      next := WriteB(at, MAGIC);
      ghost var b := Content();
      next := WriteB(next, channel);
      ghost var c := Content();
      WroteMore(a, b, c, at, [MAGIC], [channel]);
      flapSeq := flapSeq + 1;
      next := WriteW(next, flapSeq);
      WroteMore(a, c, Content(), at, [MAGIC] + [channel], Be16(flapSeq));
      assert [MAGIC] + [channel] == [MAGIC, channel];
      next := next + 2;
    }

    /** encode_snac: a frame on channel 2 that so far holds a SNAC header only. */
    method EncodeSnac(at: nat, kind: int) returns (next: nat)
      requires at + 16 <= buf.Length
      modifies buf, `flapSeq, `snacSeq
      ensures flapSeq == old(flapSeq) + 1 && snacSeq == old(snacSeq) + 1 && next == at + 16
      ensures Wrote(old(Content()), Content(), at, FlapFrame(2, flapSeq, SnacHead(kind, snacSeq)))
    {
      hide Be16, Be32, FlapHead, Wrote;
      ghost var a := Content();
      var flap := FlapBegin(at, 2);
      ghost var b := Content();
      next := WriteL(flap, kind);
      ghost var c := Content();
      next := WriteW(next, 0);
      WroteMore(b, c, Content(), at + 6, Be32(kind), Be16(0));
      c := Content();
      snacSeq := snacSeq + 1;
      next := WriteL(next, snacSeq);
      WroteMore(b, c, Content(), at + 6, Be32(kind) + Be16(0), Be32(snacSeq));
      c := Content();
      next := TlvEnd(next, flap);
      WrotePatched(a, b, c, Content(), at, FlapHead(2, flapSeq), Be16(10), SnacHead(kind, snacSeq));
    }

    /** The length of the frame whose SNAC header ends at beg now covers what has been written up to at. */
    method SnacEnd(at: nat, beg: nat) returns (next: nat)
      requires 12 <= beg <= at && beg <= buf.Length
      modifies buf
      ensures next == at && Wrote(old(Content()), Content(), beg - 12, Be16(at - (beg - 10)))
    {
      next := TlvEnd(at, beg - 10);
    }

    /** The part of a message in front of its TLV 2. */
    method EncodeMsgHead(at: nat, uin: seq<Byte>) returns (next: nat)
      requires at + 11 + |uin| <= buf.Length
      modifies buf
      ensures next == at + |MsgHead(uin)| && Wrote(old(Content()), Content(), at, MsgHead(uin))
    {
      hide Be16, Be32, Wrote;
      ghost var a := Content();
      next := WriteL(at, 0);
      ghost var c := Content();
      next := WriteL(next, 0);
      WroteMore(a, c, Content(), at, Be32(0), Be32(0));
      c := Content();
      next := WriteW(next, 1);
      WroteMore(a, c, Content(), at, Be32(0) + Be32(0), Be16(1));
      c := Content();
      next := WriteB(next, (|uin| % 0x100) as Byte);
      WroteMore(a, c, Content(), at, Be32(0) + Be32(0) + Be16(1), [(|uin| % 0x100) as Byte]);
      c := Content();
      next := WriteS(next, uin);
      WroteMore(a, c, Content(), at, Be32(0) + Be32(0) + Be16(1) + [(|uin| % 0x100) as Byte], uin);
    }

    /** The TLV 0x0501 of a message. */
    method EncodeCaps(at: nat) returns (next: nat)
      requires at + 5 <= buf.Length
      modifies buf
      ensures next == at + 5 && Wrote(old(Content()), Content(), at, Tlv(Item(0x0501, [0])))
    {
      hide Be16, Wrote;
      ghost var a := Content();
      var t := TlvBegin(at, 0x0501);
      ghost var b := Content();
      next := WriteB(t, 0);
      ghost var c := Content();
      next := TlvEnd(next, t);
      WrotePatched(a, b, c, Content(), at, Be16(0x0501), Be16(1), [0]);
    }

    /** The TLV 0x0101 of a message. */
    method EncodeText(at: nat, msg: seq<Byte>) returns (next: nat)
      requires at + 8 + |msg| <= buf.Length
      modifies buf
      ensures next == at + 8 + |msg| && Wrote(old(Content()), Content(), at, Tlv(Item(0x0101, ZEROS + msg)))
    {
      hide Be16, Wrote;
      ghost var a := Content();
      var t := TlvBegin(at, 0x0101);
      ghost var b := Content();
      next := WriteL(t, 0);
      ghost var c := Content();
      next := WriteS(next, msg);
      WroteMore(b, c, Content(), t, Be32(0), msg);
      ZerosAre();
      c := Content();
      next := TlvEnd(next, t);
      WrotePatched(a, b, c, Content(), at, Be16(0x0101), Be16(|ZEROS + msg|), ZEROS + msg);
    }

    /** encode_msg */
    method EncodeMsg(at: nat, uin: seq<Byte>, msg: seq<Byte>) returns (next: nat)
      requires at + |MsgBody(uin, msg)| <= buf.Length
      modifies buf
      ensures next == at + |MsgBody(uin, msg)| && Wrote(old(Content()), Content(), at, MsgBody(uin, msg))
    {
      MsgItemLength(msg);
      MsgItemKind(msg);
      hide Be16, Be32, Wrote;
      ghost var a := Content();
      var x := EncodeMsgHead(at, uin);
      ghost var h := Content();
      var tlv := TlvBegin(x, 0x0002);
      ghost var b := Content();
      next := EncodeCaps(tlv);
      ghost var c := Content();
      next := EncodeText(next, msg);
      WroteMore(b, c, Content(), tlv, Tlv(Item(0x0501, [0])), Tlv(Item(0x0101, ZEROS + msg)));
      c := Content();
      next := TlvEnd(next, tlv);
      WrotePatched(h, b, c, Content(), x, Be16(0x0002), Be16(|MsgItem(msg).data|), MsgItem(msg).data);
      WroteMore(a, h, Content(), at, MsgHead(uin), Tlv(MsgItem(msg)));
    }

    /** The packet icq_sendmsg sends. */
    method EncodeMessage(uin: seq<Byte>, msg: seq<Byte>) returns (len: nat)
      requires 16 + |MsgBody(uin, msg)| <= buf.Length
      modifies buf, `flapSeq, `snacSeq
      ensures flapSeq == old(flapSeq) + 1 && snacSeq == old(snacSeq) + 1
      ensures len == 16 + |MsgBody(uin, msg)|
      ensures Wrote(old(Content()), Content(), 0, MessagePacket(flapSeq, snacSeq, uin, msg))
    {
      hide Be16, Be32, Wrote, MsgBody, SnacHead, FlapHead, FlapFrame;
      ghost var a := Content();
      var beg := EncodeSnac(0, 0x40006);
      ghost var b := Content();
      len := EncodeMsg(beg, uin, msg);
      ghost var c := Content();
      len := SnacEnd(len, beg);
      FrameGrown(a, b, c, Content(), 2, flapSeq, SnacHead(0x40006, snacSeq), MsgBody(uin, msg));
    }

    /** One more write_tlv behind what has been written from place start on. */
    method AppendTlv(at: nat, item: Item, ghost start: nat, ghost a: seq<Byte>, ghost head: seq<Byte>,
          ghost items: seq<Item>) returns (next: nat)
      requires Wrote(a, Content(), start, head + Tlvs(items)) && at == start + |head + Tlvs(items)|
      requires at + 4 + |item.data| <= buf.Length
      modifies buf
      ensures next == at + 4 + |item.data| == start + |head + Tlvs(items + [item])|
      ensures Wrote(a, Content(), start, head + Tlvs(items + [item]))
    {
      hide Wrote, Tlv;
      ghost var b := Content();
      next := WriteTlv(at, item.kind, item.data);
      assert Item(item.kind, item.data) == item;
      WroteMore(a, b, Content(), start, head + Tlvs(items), Tlv(item));
      TlvsSnoc(items, item);
      assert head + Tlvs(items) + Tlv(item) == head + Tlvs(items + [item]);
    }

    /** The start of a frame on channel 1, as encode_login and encode_reconnect write it. */
    method BeginLogin() returns (len: nat, ghost b: seq<Byte>)
      requires 10 <= buf.Length
      modifies buf, `flapSeq
      ensures flapSeq == old(flapSeq) + 1 && len == 10 == 6 + |Be32(1) + Tlvs([])|
      ensures Wrote(old(Content()), b, 0, FlapHead(1, flapSeq)) && Wrote(b, Content(), 6, Be32(1) + Tlvs([]))
    {
      hide Be16, Be32, Wrote, FlapHead;
      var flap := FlapBegin(0, 1);
      b := Content();
      len := WriteL(flap, 1);
      assert Be32(1) + Tlvs([]) == Be32(1);
    }

    method EndLogin(at: nat, ghost a: seq<Byte>, ghost b: seq<Byte>, ghost items: seq<Item>) returns (len: nat)
      requires at == 10 + |Tlvs(items)| <= buf.Length
      requires Wrote(a, b, 0, FlapHead(1, flapSeq)) && Wrote(b, Content(), 6, Be32(1) + Tlvs(items))
      modifies buf
      ensures len == at && Wrote(a, Content(), 0, FlapFrame(1, flapSeq, Be32(1) + Tlvs(items)))
    {
      hide Be16, Be32, Wrote, FlapHead, Tlvs;
      ghost var c := Content();
      len := TlvEnd(at, 6);
      WrotePatched(a, b, c, Content(), 0, FlapHead(1, flapSeq), Be16(|Be32(1) + Tlvs(items)|), Be32(1) + Tlvs(items));
    }

    /** encode_login; secret is the password as encode_passwd scrambles it. */
    method EncodeLogin(uin: seq<Byte>, secret: seq<Byte>, version: seq<Byte>) returns (len: nat)
      requires 72 + |uin| + |secret| + |version| <= buf.Length
      modifies buf, `flapSeq
      ensures flapSeq == old(flapSeq) + 1 && len == 10 + |Tlvs(LoginItems(uin, secret, version))|
      ensures Wrote(old(Content()), Content(), 0, LoginPacket(flapSeq, LoginItems(uin, secret, version)))
    {
      hide Be16, Be32, Wrote, FlapHead, Tlvs, Tlv;
      ghost var items: seq<Item> := [];
      ghost var b;
      len, b := BeginLogin();
      len := AppendTlv(len, Item(0x01, uin), 6, b, Be32(1), items);
      items := items + [Item(0x01, uin)];
      len := AppendTlv(len, Item(0x02, secret), 6, b, Be32(1), items);
      items := items + [Item(0x02, secret)];
      len := AppendTlv(len, Item(0x03, version), 6, b, Be32(1), items);
      items := items + [Item(0x03, version)];
      len := AppendTlv(len, Item(0x16, [0x01, 0x0A]), 6, b, Be32(1), items);
      items := items + [Item(0x16, [0x01, 0x0A])];
      len := AppendTlv(len, Item(0x17, [0x00, 0x04]), 6, b, Be32(1), items);
      items := items + [Item(0x17, [0x00, 0x04])];
      len := AppendTlv(len, Item(0x18, [0x00, 0x3C]), 6, b, Be32(1), items);
      items := items + [Item(0x18, [0x00, 0x3C])];
      len := AppendTlv(len, Item(0x19, [0x00, 0x01]), 6, b, Be32(1), items);
      items := items + [Item(0x19, [0x00, 0x01])];
      len := AppendTlv(len, Item(0x1A, [0x0C, 0x0E]), 6, b, Be32(1), items);
      items := items + [Item(0x1A, [0x0C, 0x0E])];
      len := AppendTlv(len, Item(0x14, [0x00, 0x00, 0x00, 0x55]), 6, b, Be32(1), items);
      items := items + [Item(0x14, [0x00, 0x00, 0x00, 0x55])];
      len := AppendTlv(len, Item(0x0E, [0x75, 0x73]), 6, b, Be32(1), items);
      items := items + [Item(0x0E, [0x75, 0x73])];
      len := AppendTlv(len, Item(0x0F, [0x65, 0x6E]), 6, b, Be32(1), items);
      items := items + [Item(0x0F, [0x65, 0x6E])];
      assert items == LoginItems(uin, secret, version);
      len := EndLogin(len, old(Content()), b, items);
    }

    /** encode_reconnect */
    method EncodeReconnect(cookie: seq<Byte>) returns (len: nat)
      requires 14 + |cookie| <= buf.Length
      modifies buf, `flapSeq
      ensures flapSeq == old(flapSeq) + 1 && len == 14 + |cookie|
      ensures Wrote(old(Content()), Content(), 0, LoginPacket(flapSeq, [Item(0x06, cookie)]))
    {
      hide Be16, Be32, Wrote, FlapHead, Tlvs, Tlv;
      ghost var b;
      len, b := BeginLogin();
      len := AppendTlv(len, Item(0x06, cookie), 6, b, Be32(1), []);
      assert [] + [Item(0x06, cookie)] == [Item(0x06, cookie)];
      len := EndLogin(len, old(Content()), b, [Item(0x06, cookie)]);
    }
  }

  /** The items of encode_login; secret is the password as encode_passwd scrambles it. */
  function LoginItems(uin: seq<Byte>, secret: seq<Byte>, version: seq<Byte>): seq<Item> {
    [ Item(0x01, uin), Item(0x02, secret), Item(0x03, version),
      Item(0x16, [0x01, 0x0A]), Item(0x17, [0x00, 0x04]), Item(0x18, [0x00, 0x3C]), Item(0x19, [0x00, 0x01]),
      Item(0x1A, [0x0C, 0x0E]), Item(0x14, [0x00, 0x00, 0x00, 0x55]), Item(0x0E, [0x75, 0x73]),
          Item(0x0F, [0x65, 0x6E]) ]
  }

  function LoginPacket(seqNo: int, items: seq<Item>): seq<Byte> {
    FlapFrame(1, seqNo, Be32(1) + Tlvs(items))
  }

  datatype Login = NoLogin | Login(items: seq<Item>, complete: bool, size: nat)

  /** What a receiver makes of a frame on channel 1. */
  function ReceiveLogin(s: seq<Byte>): Login {
    match Decode(s)
    case Unfinished => NoLogin
    case OutOfSync => NoLogin
    case Frame(p, n) =>
      if p.channel != 1 || |p.payload| < 4 then NoLogin
      else var r := ReadAll(p.payload[4..]); Login(r.0, r.1, n)
  }

  /** A login or reconnect packet is received as the items it was made of, and consumed to its last byte. */
  lemma LoginBack(seqNo: int, items: seq<Item>, t: seq<Byte>)
    requires 4 + |Tlvs(items)| < 0x10000 && forall i :: 0 <= i < |items| ==> items[i].kind < 0x10000
    ensures ReceiveLogin(LoginPacket(seqNo, items) + t) == Login(items, true, |LoginPacket(seqNo, items)|)
  {
    hide Be16, Be32, FlapFrame, Decode, ReadAll, Tlvs;
    DecodeFlapBack(1, seqNo, Be32(1) + Tlvs(items), t);
    forall i | 0 <= i < |items| ensures items[i].kind < 0x10000 && |items[i].data| < 0x10000 { TlvsFit(items, i); }
    ReadAllBack(items);
    assert (Be32(1) + Tlvs(items))[4..] == Tlvs(items);
  }

  datatype Message = NoMessage | Message(uin: seq<Byte>, text: Option<seq<Byte>>)

  /** The UIN behind its length byte, and the text in the TLVs behind that. */
  function ReadMessage(body: seq<Byte>): Message {
    if |body| < 11 || |body| < 11 + body[10] as nat then NoMessage
    else
      var n := 11 + body[10] as nat;
      Message(body[11..n], MsgText(body[n..]))
  }

  /** The body of a message gives UIN and text back if the length byte and the outer length fit. */
  lemma ReadMessageBack(uin: seq<Byte>, msg: seq<Byte>)
    requires |uin| < 0x100
    ensures ReadMessage(MsgBody(uin, msg)) == Message(uin, Some(ZEROS + msg)) <==> |msg| + 13 < 0x10000
  {
    MsgTextBack(msg);
    hide Be16, Be32, Tlv, MsgItem, MsgText, ReadMessage;
    ReadMessageIs(Be32(0) + Be32(0) + Be16(1), |uin| as Byte, uin, Tlv(MsgItem(msg)));
  }

  lemma ReadMessageIs(head: seq<Byte>, len: Byte, uin: seq<Byte>, rest: seq<Byte>)
    requires |head| == 10 && len as nat == |uin|
    ensures ReadMessage(head + [len] + uin + rest) == Message(uin, MsgText(rest))
  {
    hide MsgText;
    var s := head + [len] + uin + rest;
    assert s[10] == len;
    assert s[11..11 + |uin|] == uin && s[11 + |uin|..] == rest;
  }

  datatype Receipt = Nothing | Receipt(kind: nat, message: Message, size: nat)

  /** What a receiver makes of a frame with a SNAC that holds a message. */
  function Receive(s: seq<Byte>): Receipt {
    match Decode(s)
    case Unfinished => Nothing
    case OutOfSync => Nothing
    case Frame(p, n) =>
      match DecodeSnac(p.payload)
      case NoSnac => Nothing
      case Snac(kind, body) => Receipt(kind, ReadMessage(body), n)
  }

  function MessagePacket(flapNo: int, snacNo: int, uin: seq<Byte>, msg: seq<Byte>): seq<Byte> {
    FlapFrame(2, flapNo, SnacHead(0x40006, snacNo) + MsgBody(uin, msg))
  }

  /** A message packet is received as type 0x40006 with its UIN and text, and consumed to its last byte. */
  lemma MessageBack(flapNo: int, snacNo: int, uin: seq<Byte>, msg: seq<Byte>, t: seq<Byte>)
    requires |uin| < 0x100 && 38 + |uin| + |msg| < 0x10000
    ensures Receive(MessagePacket(flapNo, snacNo, uin, msg) + t) ==
      Receipt(0x40006, Message(uin, Some(ZEROS + msg)), |MessagePacket(flapNo, snacNo, uin, msg)|)
  {
    hide Be16, Be32, MsgBody, SnacHead, FlapFrame, Decode, DecodeSnac, ReadMessage;
    DecodeFlapBack(2, flapNo, SnacHead(0x40006, snacNo) + MsgBody(uin, msg), t);
    DecodeSnacBack(0x40006, snacNo, MsgBody(uin, msg));
    ReadMessageBack(uin, msg);
  }

  /** A frame with payload head, then more written behind it, then its length put in again. */
  lemma FrameGrown(a: seq<Byte>, b: seq<Byte>, c: seq<Byte>, d: seq<Byte>, channel: Byte, seqNo: int, head: seq<Byte>,
        more: seq<Byte>)
    requires |head| == 10 && Wrote(a, b, 0, FlapFrame(channel, seqNo, head)) && Wrote(b, c, 16, more)
    requires Wrote(c, d, 4, Be16(10 + |more|))
    ensures Wrote(a, d, 0, FlapFrame(channel, seqNo, head + more))
  {
    hide Be16, Wrote, FlapHead;
    Repatched(a, b, c, d, 0, FlapHead(channel, seqNo), Be16(10), Be16(10 + |more|), head, more);
  }

  lemma ZerosAre()
    ensures Be32(0) == ZEROS
  {
    hide Be16;
    var s := Be16(0);
    assert Word(s[0], s[1]) == 0;
    assert s == [0, 0];
    assert Be32(0) == s + s;
  }

  lemma {:induction false} TlvsSnoc(items: seq<Item>, i: Item)
    ensures Tlvs(items + [i]) == Tlvs(items) + Tlv(i)
  {
    if items == [] {
      assert ([] + [i])[1..] == [];
      assert Tlvs([]) + Tlv(i) == Tlv(i) && Tlv(i) + Tlvs([]) == Tlv(i);
    } else {
      TlvsSnoc(items[1..], i);
      assert (items + [i])[1..] == items[1..] + [i];
      assert Tlv(items[0]) + (Tlvs(items[1..]) + Tlv(i)) == Tlv(items[0]) + Tlvs(items[1..]) + Tlv(i);
    }
  }

  lemma {:induction false} TlvsFit(items: seq<Item>, i: nat)
    requires i < |items|
    ensures |Tlvs(items[..i])| + 4 + |items[i].data| <= |Tlvs(items)|
  {
    if i > 0 {
      TlvsFit(items[1..], i - 1);
      assert items[1..][..i - 1] == items[..i][1..];
    }
  }

  /** A frame whose length has been put in again after more was written. */
  lemma Repatched(a: seq<Byte>, b: seq<Byte>, c: seq<Byte>, d: seq<Byte>, at: nat,
    head: seq<Byte>, len: seq<Byte>, len': seq<Byte>, tail: seq<Byte>, more: seq<Byte>)
    requires |len| == |len'| == 2 && Wrote(a, b, at, head + len + tail) && Wrote(b, c, at + |head + len + tail|, more)
    requires Wrote(c, d, at + |head|, len')
    ensures Wrote(a, d, at, head + len' + (tail + more))
  {
    WroteMore(a, b, c, at, head + len + tail, more);
    Overwritten(a, c, d, at, head, len, len', tail + more);
  }

  lemma Overwritten(a: seq<Byte>, c: seq<Byte>, d: seq<Byte>, at: nat, head: seq<Byte>, len: seq<Byte>,
        len': seq<Byte>, tail: seq<Byte>)
    requires |len| == |len'| && Wrote(a, c, at, head + len + tail) && Wrote(c, d, at + |head|, len')
    ensures Wrote(a, d, at, head + len' + tail)
  {
    var n := at + |head|;
    assert c[..n] == a[..at] + head;
    assert c[n + |len|..] == tail + a[n + |len| + |tail|..];
    assert d == c[..n] + len' + c[n + |len|..];
  }

  // ------------------------------------------------------------------- the bytes themselves

  /** The four bytes of a number, the high-order one first. */
  lemma NumberBytes(v: nat)
    ensures Be16(v) == [(v / 0x100 % 0x100) as Byte, (v % 0x100) as Byte]
    ensures Be32(v) == [(v / 0x100_0000 % 0x100) as Byte, (v / 0x1_0000 % 0x100) as Byte,
      (v / 0x100 % 0x100) as Byte, (v % 0x100) as Byte]
  {
    assert v / 0x1_0000 / 0x100 == v / 0x100_0000;
  }

  /** A frame: the magic byte, the channel, the sequence number, the length, the payload. */
  lemma FrameBytes(channel: Byte, seqNo: nat, payload: seq<Byte>)
    ensures FlapFrame(channel, seqNo, payload) ==
      [0x2A, channel, (seqNo / 0x100 % 0x100) as Byte, (seqNo % 0x100) as Byte,
       (|payload| / 0x100 % 0x100) as Byte, (|payload| % 0x100) as Byte] + payload
  {
  }

  /** A SNAC: the type, no flags, the sequence number. */
  lemma SnacBytes(kind: nat, seqNo: nat)
    ensures SnacHead(kind, seqNo) == Be32(kind) + [0, 0] + Be32(seqNo)
  {
    Small(0);
    hide Be16, Be32;
  }

  lemma Small(v: nat)
    requires v < 0x100
    ensures Be16(v) == [0, v as Byte]
  {
  }

  lemma ShortTlv(kind: nat, data: seq<Byte>)
    requires kind < 0x100 && |data| < 0x100
    ensures Tlv(Item(kind, data)) == [0, kind as Byte, 0, |data| as Byte] + data
  {
    Small(kind);
    Small(|data|);
    hide Be16;
  }

  /** The body of a message: eight zero bytes, channel 1, the UIN behind its length, and TLV 2 with the capabilities
      and the text. */
  lemma MessageBytes(uin: seq<Byte>, msg: seq<Byte>)
    requires |uin| < 0x100
    ensures MsgBody(uin, msg) == ZEROS + ZEROS + [0, 1] + [|uin| as Byte] + uin + ([0, 2] + Be16(|msg| + 13) +
      ([5, 1, 0, 1, 0] + ([1, 1] + Be16(|msg| + 4) + (ZEROS + msg))))
  {
    MsgHeadBytes(uin);
    MsgItemBytes(msg);
    Small(2);
    hide Be16, MsgHead, MsgItem;
    assert Tlv(MsgItem(msg)) == [0, 2] + Be16(|msg| + 13) + MsgItem(msg).data;
  }

  lemma MsgHeadBytes(uin: seq<Byte>)
    requires |uin| < 0x100
    ensures MsgHead(uin) == ZEROS + ZEROS + [0, 1] + [|uin| as Byte] + uin
  {
    Small(0);
    Small(1);
    assert Be32(0) == ZEROS by { NumberBytes(0); }
    hide Be16, Be32;
  }

  lemma MsgItemBytes(msg: seq<Byte>)
    ensures MsgItem(msg).kind == 2
    ensures MsgItem(msg).data == [5, 1, 0, 1, 0] + ([1, 1] + Be16(|msg| + 4) + (ZEROS + msg))
  {
    Small(1);
    assert Be16(0x0501) == [5, 1] && Be16(0x0101) == [1, 1];
    hide Be16;
    assert Tlv(Item(0x0501, [0])) == [5, 1, 0, 1, 0];
    assert Tlv(Item(0x0101, ZEROS + msg)) == [1, 1] + Be16(|msg| + 4) + (ZEROS + msg);
  }

  const LOGIN_TAIL: seq<Byte> :=
    [0, 0x16, 0, 2, 0x01, 0x0A] + ([0, 0x17, 0, 2, 0, 4] + ([0, 0x18, 0, 2, 0, 0x3C] + ([0, 0x19, 0, 2, 0, 1]
    + ([0, 0x1A, 0, 2, 0x0C, 0x0E] + ([0, 0x14, 0, 4, 0, 0, 0, 0x55] + ([0, 0x0E, 0, 2, 0x75, 0x73]
    + [0, 0x0F, 0, 2, 0x65, 0x6E]))))))

  /** The items of a login: the UIN, the scrambled password, the version, and what is always the same. */
  lemma LoginBytes(uin: seq<Byte>, secret: seq<Byte>, version: seq<Byte>)
    ensures Tlvs(LoginItems(uin, secret, version)) ==
      ([0, 1] + Be16(|uin|) + uin)
      + (([0, 2] + Be16(|secret|) + secret) + (([0, 3] + Be16(|version|) + version) + LOGIN_TAIL))
  {
    var i, j, k := Item(0x01, uin), Item(0x02, secret), Item(0x03, version);
    LoginList(uin, secret, version);
    Small(1);
    Small(2);
    Small(3);
    hide Be16, LoginItems;
    LoginTail();
    assert Tlv(i) == [0, 1] + Be16(|uin|) + uin;
    assert Tlv(j) == [0, 2] + Be16(|secret|) + secret;
    assert Tlv(k) == [0, 3] + Be16(|version|) + version;
    hide Tlvs, Tlv;
    TlvsFirst(i, [j] + ([k] + ALWAYS));
    TlvsFirst(j, [k] + ALWAYS);
    TlvsFirst(k, ALWAYS);
  }

  const ALWAYS: seq<Item> := [Item(0x16, [0x01, 0x0A])] + ([Item(0x17, [0x00, 0x04])] + ([Item(0x18, [0x00, 0x3C])]
    + ([Item(0x19, [0x00, 0x01])] + ([Item(0x1A, [0x0C, 0x0E])] + ([Item(0x14, [0x00, 0x00, 0x00, 0x55])]
    + ([Item(0x0E, [0x75, 0x73])] + [Item(0x0F, [0x65, 0x6E])]))))))

  lemma LoginList(uin: seq<Byte>, secret: seq<Byte>, version: seq<Byte>)
    ensures LoginItems(uin, secret, version) ==
      [Item(0x01, uin)] + ([Item(0x02, secret)] + ([Item(0x03, version)] + ALWAYS))
  {
  }

  lemma TlvsFirst(i: Item, items: seq<Item>)
    ensures Tlvs([i] + items) == Tlv(i) + Tlvs(items)
  {
    assert ([i] + items)[1..] == items;
  }

  lemma LoginTail()
    ensures Tlvs(ALWAYS) == LOGIN_TAIL
  {
    var s7 := [Item(0x0F, [0x65, 0x6E])];
    NextTlv(0x0F, [0x65, 0x6E], [], [0, 0x0F, 0, 2, 0x65, 0x6E]);
    assert s7 + [] == s7;
    var s6 := [Item(0x0E, [0x75, 0x73])] + s7;
    NextTlv(0x0E, [0x75, 0x73], s7, [0, 0x0E, 0, 2, 0x75, 0x73]);
    var s5 := [Item(0x14, [0x00, 0x00, 0x00, 0x55])] + s6;
    NextTlv(0x14, [0x00, 0x00, 0x00, 0x55], s6, [0, 0x14, 0, 4, 0, 0, 0, 0x55]);
    var s4 := [Item(0x1A, [0x0C, 0x0E])] + s5;
    NextTlv(0x1A, [0x0C, 0x0E], s5, [0, 0x1A, 0, 2, 0x0C, 0x0E]);
    var s3 := [Item(0x19, [0x00, 0x01])] + s4;
    NextTlv(0x19, [0x00, 0x01], s4, [0, 0x19, 0, 2, 0, 1]);
    var s2 := [Item(0x18, [0x00, 0x3C])] + s3;
    NextTlv(0x18, [0x00, 0x3C], s3, [0, 0x18, 0, 2, 0, 0x3C]);
    var s1 := [Item(0x17, [0x00, 0x04])] + s2;
    NextTlv(0x17, [0x00, 0x04], s2, [0, 0x17, 0, 2, 0, 4]);
    NextTlv(0x16, [0x01, 0x0A], s1, [0, 0x16, 0, 2, 0x01, 0x0A]);
    hide Tlvs;
  }

  lemma NextTlv(kind: nat, data: seq<Byte>, rest: seq<Item>, bytes: seq<Byte>)
    requires kind < 0x100 && |data| < 0x100 && bytes == [0, kind as Byte, 0, |data| as Byte] + data
    ensures Tlvs([Item(kind, data)] + rest) == bytes + Tlvs(rest)
    ensures rest == [] ==> Tlvs([Item(kind, data)]) == bytes
  {
    ShortTlv(kind, data);
    TlvsFirst(Item(kind, data), rest);
    assert rest == [] ==> [Item(kind, data)] + rest == [Item(kind, data)];
  }

  /** A login is on channel 1, a message on channel 2 in a SNAC of type 0x40006. */
  lemma Channels(flapNo: int, snacNo: nat, items: seq<Item>, uin: seq<Byte>, msg: seq<Byte>)
    ensures LoginPacket(flapNo, items) == FlapFrame(1, flapNo, Be32(1) + Tlvs(items))
    ensures MessagePacket(flapNo, snacNo, uin, msg) ==
      FlapFrame(2, flapNo, SnacHead(0x40006, snacNo) + MsgBody(uin, msg))
  {
    hide Be32, SnacHead, Tlvs, MsgBody, FlapFrame;
  }

  /** The SNAC of a message: family 4, type 6, no flags, the sequence number. */
  lemma MessageSnac(snacNo: nat)
    ensures SnacHead(0x40006, snacNo) == [0, 4, 0, 6] + [0, 0] + Be32(snacNo)
  {
    OneBytes();
    SnacBytes(0x40006, snacNo);
    hide Be16, Be32, SnacHead;
  }

  lemma OneBytes()
    ensures Be32(1) == [0, 0, 0, 1] && Be32(0x40006) == [0, 4, 0, 6]
  {
    Small(0);
    Small(1);
    Small(4);
    Small(6);
    assert 0x40006 / 0x10000 == 4 && Be16(0x40006) == Be16(6);
    hide Be16;
  }

  /** An item is there exactly if there are the four bytes of its head, and as many behind it as they say. */
  lemma TlvThere(s: seq<Byte>)
    ensures ReadTlv(s).Short? <==> |s| < 4 || |s| < 4 + 256 * s[2] as nat + s[3] as nat
  {
    if |s| >= 4 { assert Word(s[2], s[3]) == 256 * s[2] as nat + s[3] as nat; }
  }

  /** The scan stops at the first item of its type, and passes every other. */
  lemma ScanFirst(i: Item, rest: seq<Byte>, kind: nat)
    requires i.kind < 0x10000 && |i.data| < 0x10000
    ensures Scan(Tlv(i) + rest, kind) == if i.kind == kind then Some(i.data) else Scan(rest, kind)
    ensures Scan([], kind) == None
  {
    ReadTlvBack(i, rest);
    hide Tlv, ReadTlv;
    TlvThere([]);
  }

  /** A SNAC is one exactly if it has the ten bytes of its head. */
  lemma SnacThere(s: seq<Byte>)
    ensures DecodeSnac(s).NoSnac? <==> |s| < 10
  {
  }
}
