/** Removing a contact: its buddies go one by one, and the last one takes the contact with it. */
module BlistRemoval {
  import opened BlistModel
  import opened BlistTally
  import opened BlistMoves
  import opened BlistMerge
  import opened BlistPresence

  ghost predicate IsContact(w: World, c: Node) {
    WellFormed(w) && c in w.par && c.kind.Contact?
  }

  // ------------------------------------------------------------------ an empty contact

  /** A contact without buddies goes, and everything is kept. */
  lemma PrunedKeeps(w: World, norm: string -> string, c: Node)
    requires Inv(w, norm) && c in w.par && c.kind.Contact? && w.kids[c] == []
    ensures Inv(Pruned(w, c), norm) && Keeps(w, Pruned(w, c))
  {
    PrunedOK(w, c);
    PrunedIndex(w, norm, c);
    PrunedRest(w, c);
  }

  lemma PrunedIndex(w: World, norm: string -> string, c: Node)
    requires Inv(w, norm) && c in w.par && c.kind.Contact? && w.kids[c] == []
    ensures IndexOK(Pruned(w, c), norm, Pruned(w, c).index)
  {
    assert forall n: Node :: n in w.par ==> w.par[n] != c;
    KeysRemoved(w.par, norm, c);
  }

  lemma PrunedRest(w: World, c: Node)
    requires WellFormed(w) && NamesOK(w) && c in w.par && c.kind.Contact? && w.kids[c] == [] && WellFormed(Pruned(w, c))
    ensures NamesOK(Pruned(w, c)) && (PrioritiesOK(w) ==> PrioritiesOK(Pruned(w, c)))
    ensures (TimersOK(w) ==> TimersOK(Pruned(w, c)))
  {
    assert Pruned(w, c).kids[null] == w.kids[null];
    if TimersOK(w) { TimersStay(w, Pruned(w, c)); }
  }

  // ------------------------------------------------------------------- buddy by buddy

  ghost function DrainedKids(kids: map<Node?, seq<Node>>, h: Node?, c: Node, i: nat): map<Node?, seq<Node>>
    requires h in kids && c in kids && i <= |kids[c]|
  {
    if 0 < i == |kids[c]| then (kids - {c})[h := Without(kids[h], c)] else kids[c := kids[c][i..]]
  }

  /** The first i buddies of contact c are gone from w, and c with the last. */
  ghost predicate Drained(u: World, w: World, c: Node, i: nat)
    requires IsContact(u, c)
  {
    i <= |u.kids[c]| && SameRest(u, w) && w.prio == u.prio && w.kids == DrainedKids(u.kids, u.par[c], c, i)
  }

  lemma NothingDrained(u: World, c: Node)
    requires IsContact(u, c)
    ensures Drained(u, u, c, 0)
  {
    assert u.kids[c][0..] == u.kids[c];
  }

  lemma DrainNext(u: World, w: World, c: Node, i: nat)
    requires IsContact(u, c) && Drained(u, w, c, i) && i < |u.kids[c]| && WellFormed(w)
    ensures var b := u.kids[c][i];
      && c in w.par && w.par[c] == u.par[c] && c in w.kids && w.kids[c] == u.kids[c][i..]
      && b in w.par && w.par[b] == c && b.kind.Buddy? && w.kids[c][0] == b
  {
    var s := u.kids[c];
    assert c in u.kids[u.par[c]];
    assert c in w.kids[u.par[c]];
    assert s[i..][0] == s[i];
    assert s[i] in w.kids[c];
  }

  lemma DrainStep(u: World, w: World, norm: string -> string, c: Node, i: nat)
    requires IsContact(u, c) && Drained(u, w, c, i) && i < |u.kids[c]| && WellFormed(w)
    requires u.kids[c][i] in w.par && u.kids[c][i].kind.Buddy?
    ensures Drained(u, BuddyRemovedW(w, norm, u.kids[c][i]), c, i + 1)
  {
    var s, b := u.kids[c], u.kids[c][i];
    DrainNext(u, w, c, i);
    DetachedKids(w, b);
    DetachedRest(w, b);
    assert Without(s[i..], b) == s[i + 1..];
    DrainedNext(u.kids, u.par[c], c, i);
  }

  lemma DrainedNext(kids: map<Node?, seq<Node>>, h: Node?, c: Node, i: nat)
    requires h in kids && c in kids && h != c && i < |kids[c]|
    ensures var m, s := DrainedKids(kids, h, c, i), kids[c][i + 1..];
      (if s == [] then (m - {c})[h := Without(m[h], c)] else m[c := s]) == DrainedKids(kids, h, c, i + 1)
  {
  }

  // ----------------------------------------------------------------- the online counts

  /** The cached online count of contact c is too high by the buddies that were signing off and are gone; that of its
      group is too high if it would not count c any more. */
  ghost predicate DrainCounts(u: World, w: World, c: Node, i: nat)
    requires IsContact(u, c) && i <= |u.kids[c]|
  {
    var f, k, g := OnlineF(u.info, u.connected), Count(u.kids[c][..i], SigningOffF(u.info)), u.par[c];
    && g != null && g in w.kids && g in w.online
    && if 0 < i == |u.kids[c]| then w.online[g] == Tally(w.kids, f, g) + Bit(k > 0)
       else
         && c in w.kids && c in w.online && w.online[c] == Tally(w.kids, f, c) + k
         && w.online[g] == Tally(w.kids, f, g) + Bit(w.online[c] > 0) - Bit(Tally(w.kids, f, c) > 0)
  }

  lemma OnlineOffline(u: World)
    requires OnlineOK(u)
    ensures OfflineOK(u)
  {
  }

  lemma DrainCountsBegin(u: World, c: Node)
    requires IsContact(u, c) && OnlineOK(u)
    ensures DrainCounts(u, u, c, 0)
  {
  }

  /** Counts and recounts of the contact and the group that b leaves. */
  lemma LeftTallies(w: World, f: Node -> bool, b: Node)
    requires WellFormed(w) && b in w.par && b.kind.Buddy?
    ensures var v, c := Left(w, b), w.par[b]; var g := w.par[c];
      && WellFormed(v) && c in v.par && v.par[c] == g
      && c in v.kids && g in v.kids && c in v.online && g in v.online && c in w.online && g in w.online
      && v.kids[c] == Without(w.kids[c], b)
      && Tally(v.kids, f, c) == Tally(w.kids, f, c) - Bit(f(b))
      && Tally(v.kids, f, g) == Tally(w.kids, f, g) - Bit(f(b) && Tally(v.kids, f, c) == 0)
      && v.online[c] == w.online[c] - Bit(IsOnline(w, b))
      && v.online[g] == w.online[g] - Bit(IsOnline(w, b) && v.online[c] == 0)
  {
    LeftWellFormed(w, b);
    BuddyRemoved(w, f, b);
  }

  /** An empty contact that goes leaves the counts of its group as they are. */
  lemma PrunedTallies(w: World, f: Node -> bool, c: Node)
    requires IsContact(w, c) && w.kids[c] == []
    ensures var v, g := Pruned(w, c), w.par[c];
      g in v.kids && g in w.kids && Tally(v.kids, f, g) == Tally(w.kids, f, g) && v.online == w.online
  {
    ContactLoosened(w, c);
    ContactRemoved(w, f, c);
    ContactDropped(Removed(w, c), f, c);
  }

  lemma BuddyBits(u: World, b: Node)
    requires b in u.info && b.kind.Buddy? && (b.account !in u.connected ==> u.info[b].present == Offline)
    ensures OnlineF(u.info, u.connected)(b) == (IsOnline(u, b) || SigningOffF(u.info)(b))
    ensures !(IsOnline(u, b) && SigningOffF(u.info)(b))
  {
  }

  lemma DrainCountsStep(u: World, w: World, norm: string -> string, c: Node, i: nat)
    requires IsContact(u, c) && Drained(u, w, c, i) && DrainCounts(u, w, c, i) && OfflineOK(u) && i < |u.kids[c]|
    requires WellFormed(w) && u.kids[c][i] in w.par && u.kids[c][i].kind.Buddy? && u.kids[c][i] in u.par
    ensures DrainCounts(u, BuddyRemovedW(w, norm, u.kids[c][i]), c, i + 1)
  {
    var b, f := u.kids[c][i], OnlineF(u.info, u.connected);
    DrainNext(u, w, c, i);
    CountSnoc(u.kids[c], SigningOffF(u.info), i);
    BuddyBits(u, b);
    LeftTallies(w, f, b);
    var v := Left(w, b);
    assert Without(u.kids[c][i..], b) == u.kids[c][i + 1..];
    if i + 1 == |u.kids[c]| {
      PrunedTallies(v, f, c);
      assert Tally(v.kids, f, c) == 0;
    }
  }

  /** Once contact c is gone, the online counts are right exactly if none of its buddies was signing off. */
  lemma DrainedOnline(u: World, w: World, c: Node)
    requires IsContact(u, c) && u.kids[c] != [] && Drained(u, w, c, |u.kids[c]|) && OnlineOK(u)
    requires DrainCounts(u, w, c, |u.kids[c]|)
    requires Count(u.kids[c], SigningOffF(u.info)) == 0 ==> OnlineOK(w)
    ensures OnlineOK(w) <==> forall b: Node :: b in u.kids[c] ==> b in u.info && u.info[b].present != SigningOff
  {
    var s := u.kids[c];
    assert s[..|s|] == s;
    NoneSigningOff(u, c);
  }

  lemma NoneSigningOff(u: World, c: Node)
    requires IsContact(u, c)
    ensures Count(u.kids[c], SigningOffF(u.info)) == 0 <==>
            forall b: Node :: b in u.kids[c] ==> b in u.info && u.info[b].present != SigningOff
  {
    var s := u.kids[c];
    forall i | 0 <= i < |s| ensures s[i] in u.info { assert s[i] in s; }
    CountNone(s, SigningOffF(u.info));
  }

  lemma {:induction false} CountNone(s: seq<Node>, f: Node -> bool)
    ensures Count(s, f) == 0 <==> forall i :: 0 <= i < |s| ==> !f(s[i])
  {
    if s != [] {
      CountNone(s[1..], f);
      assert forall i :: 0 < i < |s| ==> s[i] == s[1..][i - 1];
    }
  }

  // --------------------------------------------------------------- the contact is gone

  /** w is u without contact c, and without its buddies. */
  ghost predicate ContactGone(u: World, w: World, c: Node)
    requires IsContact(u, c)
  {
    SameRest(u, w) && w.kids == (u.kids - {c})[u.par[c] := Without(u.kids[u.par[c]], c)]
  }

  lemma DrainedKeeps(u: World, w: World, c: Node)
    requires IsContact(u, c) && u.kids[c] != [] && Drained(u, w, c, |u.kids[c]|)
    ensures ContactGone(u, w, c) && (PrioritiesOK(u) ==> PrioritiesOK(w))
  {
    forall d: Node | d in w.kids && d.kind.Contact? && PrioritiesOK(u) ensures PriorityAt(w, d) {
      assert d in u.kids && w.kids[d] == u.kids[d];
      assert PriorityAt(u, d);
    }
  }

  lemma PrunedGone(u: World, c: Node)
    requires IsContact(u, c) && u.kids[c] == []
    ensures ContactGone(u, Pruned(u, c), c)
  {
    assert u.par[c] != c;
  }
}
