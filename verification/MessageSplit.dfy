/** Cutting a message into pieces of limited length, at white space outside tags where there is any. */
module MessageSplit {

  /** isspace in the C locale */
  predicate IsSpace(c: char) {
    c == ' ' || '\t' <= c <= '\r'
  }

  /** How a piece ends: at a white-space character that is dropped, because of the limit, or with the message. */
  datatype Cut = Soft(c: char) | Forced | Last

  datatype Piece = Piece(text: string, cut: Cut)

  /** The text before position k of a piece leaves a tag open. */
  predicate InTag(text: string, k: nat)
    requires k <= |text|
  {
    k > 0 && (text[k - 1] == '<' || (text[k - 1] != '>' && InTag(text, k - 1)))
  }

  lemma {:induction false} InTagIff(text: string, k: nat)
    requires k <= |text|
    ensures InTag(text, k) <==> exists i :: 0 <= i < k && text[i] == '<' && '>' !in text[i..k]
  {
    if k > 0 {
      InTagIff(text, k - 1);
      if text[k - 1] == '<' {
        assert text[k - 1..k] == ['<'];
      } else {
        forall i | 0 <= i < k - 1
          ensures text[i..k] == text[i..k - 1] + [text[k - 1]]
        {
        }
      }
    }
  }

  /** A message may be cut at position k of the rest. */
  predicate Cuttable(rest: string, k: nat) {
    k < |rest| && IsSpace(rest[k]) && !InTag(rest, k)
  }

  /** The last place before k where the rest may be cut, or 0. */
  function LastCut(rest: string, k: nat): (j: nat)
    ensures j < k || j == 0
    ensures j == 0 || Cuttable(rest, j)
    ensures forall i :: j < i < k ==> !Cuttable(rest, i)
  {
    if k == 0 then 0 else if Cuttable(rest, k - 1) then k - 1 else LastCut(rest, k - 1)
  }

  /** The next piece of what is left, and how much of it is used up. */
  function Next(rest: string, limit: nat): (Piece, nat) {
    if |rest| < limit then (Piece(rest, Last), |rest|)
    else
      var j := LastCut(rest, limit + 1);
      if j > 0 then (Piece(rest[..j], Soft(rest[j])), j + 1) else (Piece(rest[..limit], Forced), limit)
  }

  /** The loop makes progress exactly when the limit is not zero. */
  lemma ProgressIff(rest: string, limit: nat)
    requires rest != ""
    ensures 0 < Next(rest, limit).1 <= |rest| <==> limit > 0
  {
  }

  function Pieces(rest: string, limit: nat): seq<Piece>
    requires limit > 0
    decreases |rest|
  {
    if rest == "" then []
    else
      var (piece, used) := Next(rest, limit);
      [piece] + Pieces(rest[used..], limit)
  }

  function Texts(pieces: seq<Piece>): seq<string> {
    if pieces == [] then [] else [pieces[0].text] + Texts(pieces[1..])
  }

  /** The pieces put together again: the dropped white space goes back where it was. */
  function Joined(pieces: seq<Piece>): string {
    if pieces == [] then ""
    else pieces[0].text + (if pieces[0].cut.Soft? then [pieces[0].cut.c] else "") + Joined(pieces[1..])
  }

  /** What the cut of a piece promises, rest being what follows the piece in the message. */
  ghost predicate CutWell(p: Piece, rest: string, limit: nat) {
    && 0 < |p.text| <= limit
    && (p.cut.Soft? ==> IsSpace(p.cut.c) && !InTag(p.text, |p.text|))
    && (p.cut.Forced? ==> |p.text| == limit)
    && (p.cut.Last? ==> rest == "")
  }

  ghost predicate AllCutWell(pieces: seq<Piece>, limit: nat) {
    pieces != [] ==> CutWell(pieces[0], Joined(pieces[1..]), limit) && AllCutWell(pieces[1..], limit)
  }

  lemma {:induction false} InTagPrefix(text: string, j: nat, k: nat)
    requires k <= j <= |text|
    ensures InTag(text[..j], k) == InTag(text, k)
  {
    if k > 0 {
      InTagPrefix(text, j, k - 1);
    }
  }

  /** Nothing of the message is lost but the one white-space character of each soft cut, no piece is longer than the
      limit, and no soft cut is inside a tag that was opened in the piece. */
  lemma {:induction false} PiecesKeep(rest: string, limit: nat)
    requires limit > 0
    ensures Joined(Pieces(rest, limit)) == rest
    ensures AllCutWell(Pieces(rest, limit), limit)
    decreases |rest|
  {
    if rest != "" {
      var (piece, used) := Next(rest, limit);
      PiecesKeep(rest[used..], limit);
      var all := Pieces(rest, limit);
      assert all[1..] == Pieces(rest[used..], limit);
      var j := LastCut(rest, limit + 1);
      if |rest| >= limit && j > 0 {
        InTagPrefix(rest, j, j);
        assert rest == rest[..j] + [rest[j]] + rest[j + 1..];
      } else {
        assert rest == rest[..used] + rest[used..];
      }
    }
  }

  /** A cut is made as late as the limit lets it be, and forced only where there is no place to cut. */
  lemma CutLate(rest: string, limit: nat)
    requires 0 < limit <= |rest|
    ensures var p := Next(rest, limit).0;
      match p.cut
      case Soft(_) => Cuttable(rest, |p.text|) && forall k :: |p.text| < k <= limit ==> !Cuttable(rest, k)
      case Forced => forall k :: 0 < k <= limit ==> !Cuttable(rest, k)
      case Last => false
  {
    var j := LastCut(rest, limit + 1);
    assert forall k :: j < k < limit + 1 ==> !Cuttable(rest, k);
  }

  /** The message may be cut at a + k: a blank stands there, and no '<' since a has been left without its '>'. */
  predicate Place(message: string, a: nat, k: nat) {
    && a + k < |message|
    && (message[a + k] == ' ' || message[a + k] == '\t' || message[a + k] == '\n' || message[a + k] as int == 11
        || message[a + k] as int == 12 || message[a + k] == '\r')
    && forall i :: a <= i < a + k && message[i] == '<' ==> '>' in message[i..a + k]
  }

  lemma PlaceIs(message: string, a: nat, k: nat)
    requires a <= |message|
    ensures Cuttable(message[a..], k) <==> Place(message, a, k)
  {
    var rest := message[a..];
    if k < |rest| {
      InTagIff(rest, k);
      forall i | 0 <= i < k ensures rest[i..k] == message[a + i..a + k] && rest[i] == message[a + i] {
      }
      if !InTag(rest, k) && IsSpace(rest[k]) {
        forall i | a <= i < a + k && message[i] == '<' ensures '>' in message[i..a + k] {
          assert rest[i - a] == '<' && rest[i - a..k] == message[i..a + k];
        }
      }
    }
  }

  /** text is the right piece from a on, and the next one starts at b: what fits is not cut; otherwise the cut is at
      the last place there is within the limit, whose blank is dropped, or at the limit. */
  ghost predicate PieceOK(message: string, limit: nat, a: nat, text: string, b: nat) {
    && a + |text| <= b <= |message| && message[a..a + |text|] == text
    && if |message| - a < limit then
         a + |text| == b == |message|
       else if exists k :: 0 < k <= limit && Place(message, a, k) then
         && 0 < |text| <= limit && b == a + |text| + 1
         && Place(message, a, |text|) && forall k :: |text| < k <= limit ==> !Place(message, a, k)
       else
         |text| == limit && b == a + limit
  }

  lemma NextOK(message: string, limit: nat, a: nat)
    requires 0 < limit && a < |message|
    ensures var (piece, used) := Next(message[a..], limit); PieceOK(message, limit, a, piece.text, a + used)
  {
    forall k: nat ensures Cuttable(message[a..], k) <==> Place(message, a, k) {
      PlaceIs(message, a, k);
    }
    var rest := message[a..];
    var j := LastCut(rest, limit + 1);
    if |rest| >= limit {
      CutLate(rest, limit);
      if j > 0 { assert Place(message, a, j); }
    }
  }

  lemma NextIs(rest: string, limit: nat)
    ensures var (piece, used), j := Next(rest, limit), LastCut(rest, limit + 1);
      if |rest| < limit then piece.text == rest && used == |rest|
      else if j > 0 then piece.text == rest[..j] && used == j + 1
      else piece.text == rest[..limit] && used == limit
  {
  }

  lemma Taken(message: string, from: nat, limit: nat)
    requires limit > 0 && from < |message|
    ensures var (piece, used) := Next(message[from..], limit);
      && 0 < used <= |message| - from
      && Texts(Pieces(message[from..], limit)) == [piece.text] + Texts(Pieces(message[from + used..], limit))
  {
    hide LastCut, Next;
    var rest := message[from..];
    var (piece, used) := Next(rest, limit);
    ProgressIff(rest, limit);
    assert rest[used..] == message[from + used..];
    assert Pieces(rest, limit)[1..] == Pieces(rest[used..], limit);
  }

  /** starts says where each piece starts, and where the last one ends. */
  method Split(message: string, limit: nat) returns (ret: seq<string>, ghost starts: seq<nat>)
    requires limit > 0
    ensures ret == Texts(Pieces(message, limit))
    ensures 0 < |message| < limit ==> ret == [message]
    ensures |starts| == |ret| + 1 && starts[0] == 0 && starts[|ret|] == |message|
    ensures forall i | 0 <= i < |ret| :: PieceOK(message, limit, starts[i], ret[i], starts[i + 1])
  {
    hide Pieces, Texts, LastCut, Next, PieceOK;
    ret, starts := [], [0];
    assert message[0..] == message;
    var lastgood := 0;
    while lastgood < |message|
      invariant lastgood <= |message| && |starts| == |ret| + 1 && starts[0] == 0 && starts[|ret|] == lastgood
      invariant forall i | 0 <= i < |ret| :: PieceOK(message, limit, starts[i], ret[i], starts[i + 1])
      invariant if lastgood == 0 then ret == [] else |message| >= limit
      invariant ret + Texts(Pieces(message[lastgood..], limit)) == Texts(Pieces(message, limit))
    {
      Taken(message, lastgood, limit);
      NextOK(message, limit, lastgood);
      NextIs(message[lastgood..], limit);
      ghost var rest := message[lastgood..];
      ghost var was := ret;
      ghost var used := Next(rest, limit).1;
      ghost var after := Texts(Pieces(message[lastgood + used..], limit));
      if |message| - lastgood < limit {
        ret := ret + [message[lastgood..]];
        starts := starts + [|message|];
        EmptyEnd(message, limit);
        return;
      }
      var curgood := FindCut(message, lastgood, limit);
      if curgood > 0 {
        ret := ret + [message[lastgood..lastgood + curgood]];
        assert rest[..curgood] == message[lastgood..lastgood + curgood];
        lastgood := lastgood + (curgood + 1);
      } else {
        // no place to cut: the piece is as long as it may be
        ret := ret + [message[lastgood..lastgood + limit]];
        assert rest[..limit] == message[lastgood..lastgood + limit];
        lastgood := lastgood + limit;
      }
      starts := starts + [lastgood];
      assert ret + after == was + ([Next(rest, limit).0.text] + after);
    }
    EmptyEnd(message, limit);
  }

  lemma EmptyEnd(message: string, limit: nat)
    requires limit > 0
    ensures Texts(Pieces(message[|message|..], limit)) == []
  {
  }

  /** The inner loop: the terminating NUL is looked at when the limit ends with the message. */
  method FindCut(message: string, lastgood: nat, limit: nat) returns (curgood: nat)
    requires lastgood + limit <= |message|
    ensures curgood == LastCut(message[lastgood..], limit + 1)
  {
    var curpos, intag := 0, false;
    curgood := 0;
    ghost var rest := message[lastgood..];
    while curpos <= limit
      invariant curpos <= limit + 1 && curgood == LastCut(rest, curpos)
      invariant curpos <= |rest| ==> intag == InTag(rest, curpos)
    {
      var c := if curpos + lastgood < |message| then message[curpos + lastgood] else '\0';
      if IsSpace(c) && !intag {
        curgood := curpos;
      }
      if c == '<' {
        intag := true;
      }
      if c == '>' {
        intag := false;
      }
      curpos := curpos + 1;
    }
  }
}
