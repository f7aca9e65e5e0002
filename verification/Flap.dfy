/** The reassembly of FLAP frames from a byte stream that arrives in arbitrary pieces. */
module Flap {

  newtype Byte = x: int | 0 <= x < 256

  const SOCK_BUFSIZE: nat := 2024
  const MAGIC: Byte := 0x2A

  datatype Packet = Packet(channel: Byte, payload: seq<Byte>)

  /** What decode_flap makes of the bytes it is given. */
  datatype Decoded = Unfinished | OutOfSync | Frame(packet: Packet, size: nat)

  function Word(hi: Byte, lo: Byte): nat {
    hi as nat * 256 + lo as nat
  }

  function Decode(s: seq<Byte>): (d: Decoded)
    ensures d.Frame? ==> 6 <= d.size <= |s|
  {
    if |s| < 6 then Unfinished
    else if s[0] != MAGIC then OutOfSync
    else
      var len := Word(s[4], s[5]);
      if |s| - 6 < len then Unfinished else Frame(Packet(s[1], s[6..6 + len]), 6 + len)
  }

  /** What is made of a stretch of the stream: the packets in it, the bytes left, and whether the
      frames were in sync. Out of sync, everything that follows is discarded. */
  datatype Outcome = Outcome(packets: seq<Packet>, rest: seq<Byte>, inSync: bool)

  function Parse(s: seq<Byte>): (o: Outcome)
    ensures |o.rest| <= |s|
  {
    match Decode(s)
    case Unfinished => Outcome([], s, true)
    case OutOfSync => Outcome([], [], false)
    case Frame(p, n) => After(p, Parse(s[n..]))
  }

  lemma DecodeIs(s: seq<Byte>)
    ensures |s| < 6 ==> Decode(s) == Unfinished
    ensures |s| >= 6 && s[0] != 0x2A ==> Decode(s) == OutOfSync
    ensures |s| >= 6 && s[0] == 0x2A ==>
      var n := 6 + 256 * s[4] as nat + s[5] as nat;
      Decode(s) == if |s| < n then Unfinished else Frame(Packet(s[1], s[6..n]), n)
  {
  }

  /** Less than a header, or less than its header says, waits. */
  lemma Waits(s: seq<Byte>)
    requires |s| < 6 || (s[0] == 0x2A && |s| < 6 + 256 * s[4] as nat + s[5] as nat)
    ensures Parse(s) == Outcome([], s, true)
  {
    DecodeIs(s);
    hide Decode;
  }

  /** A header with another first byte ends everything. */
  lemma EndsAll(s: seq<Byte>)
    requires |s| >= 6 && s[0] != 0x2A
    ensures Parse(s) == Outcome([], [], false)
  {
    DecodeIs(s);
    hide Decode;
  }

  /** Otherwise there is a packet: the channel, and as many bytes behind the header as it says. */
  lemma HandsOn(s: seq<Byte>, n: nat)
    requires |s| >= 6 && s[0] == 0x2A && n == 6 + 256 * s[4] as nat + s[5] as nat && n <= |s|
    ensures Parse(s) == After(Packet(s[1], s[6..n]), Parse(s[n..]))
  {
    DecodeIs(s);
    hide Decode;
  }

  function After(p: Packet, o: Outcome): Outcome {
    Outcome([p] + o.packets, o.rest, o.inSync)
  }

  /** One read: the bytes left by the reads before, then the chunk that has come in. */
  function Received(o: Outcome, chunk: seq<Byte>): Outcome {
    var n := Parse(o.rest + chunk);
    Outcome(o.packets + n.packets, n.rest, o.inSync && n.inSync)
  }

  const NOTHING := Outcome([], [], true)

  /** A run of reads. */
  function Run(chunks: seq<seq<Byte>>): Outcome {
    if chunks == [] then NOTHING else Received(Run(chunks[..|chunks| - 1]), chunks[|chunks| - 1])
  }

  function Concat(chunks: seq<seq<Byte>>): seq<Byte> {
    if chunks == [] then [] else Concat(chunks[..|chunks| - 1]) + chunks[|chunks| - 1]
  }

  // -------------------------------------------------------------- how the stream is cut

  /** More bytes do not change what was made of a complete frame or of a wrong magic number. */
  lemma DecodeMore(s: seq<Byte>, t: seq<Byte>)
    requires !Decode(s).Unfinished?
    ensures Decode(s + t) == Decode(s)
  {
    if Decode(s).Frame? {
      var len := Word(s[4], s[5]);
      assert (s + t)[6..6 + len] == s[6..6 + len];
    }
  }

  /** What more bytes add: nothing once the stream is out of sync. */
  ghost function Resumed(o: Outcome, t: seq<Byte>): Outcome {
    if o.inSync then Received(o, t) else o
  }

  /** Parsing resumes where it stopped. */
  lemma {:induction false} ParseResumes(s: seq<Byte>, t: seq<Byte>)
    ensures Parse(s + t) == Resumed(Parse(s), t)
  {
    match Decode(s)
    case Unfinished =>
      assert [] + Parse(s + t).packets == Parse(s + t).packets;
    case OutOfSync =>
      DecodeMore(s, t);
    case Frame(p, n) =>
      ParseResumes(s[n..], t);
      FirstFrame(s, t);
      AfterResumed(p, Parse(s[n..]), t);
  }

  lemma FirstFrame(s: seq<Byte>, t: seq<Byte>)
    requires Decode(s).Frame?
    ensures var d := Decode(s); Parse(s + t) == After(d.packet, Parse(s[d.size..] + t))
  {
    DecodeMore(s, t);
    assert (s + t)[Decode(s).size..] == s[Decode(s).size..] + t;
  }

  lemma AfterResumed(p: Packet, o: Outcome, t: seq<Byte>)
    ensures Resumed(After(p, o), t) == After(p, Resumed(o, t))
  {
    var n := Parse(o.rest + t);
    assert [p] + o.packets + n.packets == [p] + (o.packets + n.packets);
  }

  /** As long as no wrong magic number is met, how the stream was cut into reads does not matter:
      the same packets are dispatched and the same bytes are left as by one read of the whole. */
  lemma {:induction false} ChunkingIrrelevant(chunks: seq<seq<Byte>>)
    requires Parse(Concat(chunks)).inSync
    ensures Run(chunks) == Parse(Concat(chunks))
  {
    if chunks != [] {
      var c, last := chunks[..|chunks| - 1], chunks[|chunks| - 1];
      ParseResumes(Concat(c), last);
      ChunkingIrrelevant(c);
    }
  }

  /** A read may be cut in two exactly where the first part is in sync: a read after a desync starts afresh,
      while in one read the rest would be discarded. */
  lemma CutIffInSync(s: seq<Byte>)
    ensures Parse(s).inSync <==> forall t: seq<Byte> :: SameWhenCut(s, t)
  {
    if Parse(s).inSync {
      forall t: seq<Byte> ensures SameWhenCut(s, t) { CutInSync(s, t); }
    } else {
      CutOutOfSync(s, [MAGIC, 1, 0, 0, 0, 0]);
    }
  }

  ghost predicate SameWhenCut(s: seq<Byte>, t: seq<Byte>) {
    Run([s, t]).packets == Run([s + t]).packets && Run([s, t]).rest == Run([s + t]).rest
  }

  lemma TwoReads(s: seq<Byte>, t: seq<Byte>)
    ensures Run([s + t]) == Parse(s + t) && Run([s, t]) == Received(Parse(s), t)
  {
    hide Parse, Received;
    OneRead(s + t);
    OneRead(s);
    var c := [s, t];
    assert c[..|c| - 1] == [s] && c[|c| - 1] == t;
  }

  lemma CutInSync(s: seq<Byte>, t: seq<Byte>)
    requires Parse(s).inSync
    ensures SameWhenCut(s, t)
  {
    TwoReads(s, t);
    ParseResumes(s, t);
  }

  lemma CutOutOfSync(s: seq<Byte>, f: seq<Byte>)
    requires !Parse(s).inSync && f == [MAGIC, 1, 0, 0, 0, 0]
    ensures !SameWhenCut(s, f)
  {
    TwoReads(s, f);
    ParseResumes(s, f);
    DesyncLeavesNothing(s);
    EmptyFrame(f);
    assert [] + f == f;
  }

  lemma EmptyFrame(f: seq<Byte>)
    requires f == [MAGIC, 1, 0, 0, 0, 0]
    ensures Parse(f).packets == [Packet(1, [])]
  {
    assert f[6..6] == [] && f[6..] == [];
    assert Decode(f) == Frame(Packet(1, []), 6);
  }

  lemma OneRead(s: seq<Byte>)
    ensures Run([s]) == Parse(s)
  {
    assert [s][..0] == [];
    assert [] + s == s;
    assert [] + Parse(s).packets == Parse(s).packets;
  }

  lemma {:induction false} DesyncLeavesNothing(s: seq<Byte>)
    requires !Parse(s).inSync
    ensures Parse(s).rest == []
  {
    if Decode(s).Frame? { DesyncLeavesNothing(s[Decode(s).size..]); }
  }

  // --------------------------------------------------------------------- room in the buffer

  /** Every frame whose header has come in starts with the magic number and fits the buffer. */
  predicate WellFormed(s: seq<Byte>)
    decreases |s|
  {
    |s| >= 6 ==>
      && s[0] == MAGIC && 6 + Word(s[4], s[5]) <= SOCK_BUFSIZE
      && (6 + Word(s[4], s[5]) <= |s| ==> WellFormed(s[6 + Word(s[4], s[5])..]))
  }

  /** What is left of a well-formed stream is a proper beginning of one frame, and shorter than the buffer. */
  lemma {:induction false} RoomLeft(s: seq<Byte>)
    requires WellFormed(s)
    ensures Parse(s).inSync && Decode(Parse(s).rest).Unfinished? && |Parse(s).rest| < 2024
  {
    if Decode(s).Frame? { RoomLeft(s[Decode(s).size..]); }
  }

  lemma {:induction false} WellFormedSoFar(s: seq<Byte>, t: seq<Byte>)
    requires WellFormed(s + t)
    ensures WellFormed(s)
  {
    if |s| >= 6 && 6 + Word(s[4], s[5]) <= |s| {
      var n := 6 + Word(s[4], s[5]);
      assert (s + t)[n..] == s[n..] + t;
      WellFormedSoFar(s[n..], t);
    }
  }

  lemma {:induction false} ConcatCut(chunks: seq<seq<Byte>>, k: nat)
    requires k <= |chunks|
    ensures Concat(chunks) == Concat(chunks[..k]) + Concat(chunks[k..])
    decreases |chunks| - k
  {
    if k == |chunks| {
      assert chunks[..k] == chunks;
    } else {
      ConcatCut(chunks, k + 1);
      assert chunks[..k + 1][..k] == chunks[..k];
      ConcatFirst(chunks[k..]);
      assert chunks[k..][1..] == chunks[k + 1..];
    }
  }

  lemma {:induction false} ConcatFirst(chunks: seq<seq<Byte>>)
    requires chunks != []
    ensures Concat(chunks) == chunks[0] + Concat(chunks[1..])
    decreases chunks
  {
    var n := |chunks| - 1;
    if n == 0 {
      assert chunks[..0] == [];
    } else {
      ConcatFirst(chunks[..n]);
      assert chunks[..n][1..] == chunks[1..][..n - 1] && chunks[1..][n - 1] == chunks[n];
    }
  }

  /** However a well-formed stream comes in, after each read the packets so far are those of the stream so far, and
      there is room in the buffer for the next read. */
  lemma WellFormedStream(chunks: seq<seq<Byte>>, k: nat)
    requires WellFormed(Concat(chunks)) && k <= |chunks|
    ensures Run(chunks[..k]) == Parse(Concat(chunks[..k])) && |Run(chunks[..k]).rest| < 2024
  {
    ConcatCut(chunks, k);
    WellFormedSoFar(Concat(chunks[..k]), Concat(chunks[k..]));
    RoomLeft(Concat(chunks[..k]));
    ChunkingIrrelevant(chunks[..k]);
  }

  // ------------------------------------------------------------------------- the receiver

  lemma SliceOfSlice(s: seq<Byte>, a: nat, b: nat, c: nat, d: nat)
    requires a <= b <= |s| && c <= d <= b - a
    ensures s[a..b][c..d] == s[a + c..a + d]
  {
    forall i | 0 <= i < d - c ensures s[a..b][c..d][i] == s[a + c..a + d][i] {}
  }

  /** The loop of icq_parse_incoming on the bytes s has dispatched d, from d0 on, and has t before it. */
  ghost predicate Along(d0: seq<Packet>, s: seq<Byte>, d: seq<Packet>, t: seq<Byte>) {
    var o, r := Parse(s), Parse(t);
    d0 + o.packets == d + r.packets && o.rest == r.rest && o.inSync == r.inSync
  }

  lemma AlongStart(d0: seq<Packet>, s: seq<Byte>)
    ensures Along(d0, s, d0, s)
  {
  }

  lemma AlongFrame(d0: seq<Packet>, s: seq<Byte>, d: seq<Packet>, t: seq<Byte>)
    requires Along(d0, s, d, t) && Decode(t).Frame?
    ensures Along(d0, s, d + [Decode(t).packet], t[Decode(t).size..])
  {
    var r := Parse(t[Decode(t).size..]);
    assert d + ([Decode(t).packet] + r.packets) == d + [Decode(t).packet] + r.packets;
  }

  lemma NothingThere()
    ensures Decode([]) == Unfinished
  {
  }

  lemma AlongEnd(d0: seq<Packet>, s: seq<Byte>, d: seq<Packet>, t: seq<Byte>)
    requires Along(d0, s, d, t) && !Decode(t).Frame?
    ensures d == d0 + Parse(s).packets && Parse(s).rest == if Decode(t).OutOfSync? then [] else t
  {
    assert d + [] == d;
  }

  class Connection {
    const inbuf: array<Byte>
    var inbufp: nat
    ghost var dispatched: seq<Packet>

    ghost predicate Valid()
      reads this
    {
      inbuf.Length == SOCK_BUFSIZE && inbufp <= SOCK_BUFSIZE
    }

    /** The bytes left by the reads so far. */
    ghost function Pending(): seq<Byte>
      requires Valid()
      reads this, inbuf
    {
      inbuf[..inbufp]
    }

    constructor ()
      ensures Valid() && Pending() == [] && dispatched == []
    {
      inbuf := new Byte[SOCK_BUFSIZE](_ => 0);
      inbufp := 0;
      dispatched := [];
    }

    /** decode_flap on inbuf[pos..end]: null for a wrong magic number, pos for an unfinished frame. */
    method DecodeFlap(pos: nat, end: nat) returns (newpos: nat, wrongMagic: bool)
      requires Valid() && pos <= end <= SOCK_BUFSIZE
      modifies `dispatched
      ensures var d := Decode(inbuf[pos..end]);
        && wrongMagic == d.OutOfSync?
        && newpos == (if d.Frame? then pos + d.size else pos)
        && dispatched == (if d.Frame? then old(dispatched) + [d.packet] else old(dispatched))
    {
      newpos, wrongMagic := pos, false;
      ghost var s := inbuf[pos..end];
      if end - pos < 6 { return; }
      var magic := inbuf[pos];
      assert s[0] == magic && s[1] == inbuf[pos + 1] && s[4] == inbuf[pos + 4] && s[5] == inbuf[pos + 5];
      if magic != MAGIC { return pos, true; }
      var channel := inbuf[pos + 1];
      var len := inbuf[pos + 4] as nat * 256 + inbuf[pos + 5] as nat;
      if end - (pos + 6) < len { return; }
      SliceOfSlice(inbuf[..], pos, end, 6, 6 + len);
      dispatched := dispatched + [Packet(channel, inbuf[pos + 6..pos + 6 + len])];
      newpos := pos + 6 + len;
    }

    /** memmove(inbuf, inbuf + pos, end - pos) */
    method MoveDown(pos: nat, end: nat)
      requires Valid() && pos <= end <= SOCK_BUFSIZE
      modifies inbuf
      ensures inbuf[..end - pos] == old(inbuf[pos..end])
    {
      var i := 0;
      while i < end - pos
        invariant i <= end - pos && inbuf[..i] == old(inbuf[pos..pos + i])
        invariant forall k :: pos + i <= k < end ==> inbuf[k] == old(inbuf[k])
      {
        inbuf[i] := inbuf[pos + i];
        i := i + 1;
      }
    }

    /** The read: n bytes of the stream, no more than there is room for, arrive behind the pending ones. */
    method Read(chunk: seq<Byte>) returns (end: nat)
      requires Valid() && |chunk| <= SOCK_BUFSIZE - inbufp
      modifies inbuf
      ensures end == inbufp + |chunk| && inbuf[..end] == old(Pending()) + chunk
    {
      end := inbufp + |chunk|;
      forall i | 0 <= i < |chunk| { inbuf[inbufp + i] := chunk[i]; }
    }

    /** icq_parse_incoming: one read refines one step of the specification. */
    method ParseIncoming(chunk: seq<Byte>)
      requires Valid() && |chunk| <= SOCK_BUFSIZE - inbufp
      modifies this, inbuf
      ensures Valid()
      ensures if chunk == [] then Pending() == old(Pending()) && dispatched == old(dispatched)
        else
          var o := Parse(old(Pending()) + chunk);
          Pending() == o.rest && dispatched == old(dispatched) + o.packets
    {
      hide Along, Parse, Decode;
      if chunk == [] { return; }
      ghost var s := Pending() + chunk;
      ghost var d0 := dispatched;
      var end := Read(chunk);
      var pos := 0;
      assert inbuf[0..end] == s;
      AlongStart(d0, s);
      while true
        invariant pos < end <= SOCK_BUFSIZE && Valid() && inbufp == old(inbufp)
        invariant Along(d0, s, dispatched, inbuf[pos..end])
        decreases end - pos
      {
        ghost var t, d := inbuf[pos..end], dispatched;
        var newpos, wrongMagic := DecodeFlap(pos, end);
        if Decode(t).Frame? { AlongFrame(d0, s, d, t); } else { AlongEnd(d0, s, d, t); }
        if wrongMagic {
          inbufp := 0;
          return;
        }
        if newpos == end {
          assert t[newpos - pos..] == [];
          NothingThere();
          AlongEnd(d0, s, dispatched, []);
          inbufp := 0;
          return;
        }
        if newpos == pos {
          MoveDown(pos, end);
          inbufp := end - pos;
          return;
        }
        SliceOfSlice(inbuf[..], pos, end, newpos - pos, end - pos);
        pos := newpos;
      }
    }
  }
}
