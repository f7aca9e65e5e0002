/** Moving whole contacts, chats and groups. */
module BlistContacts {
  import opened BlistModel
  import opened BlistTally
  import opened BlistMoves

  // ------------------------------------------------------------------------ contacts

  /** Contact c leaves the counts of group g. */
  ghost function LessContact(w: World, c: Node, g: Node): World
    requires HasCounts(w, c) && HasCounts(w, g)
  {
    w.(total := w.total[g := w.total[g] - 1],
       current := w.current[g := w.current[g] - Bit(w.current[c] > 0)],
       online := w.online[g := w.online[g] - Bit(w.online[c] > 0)])
  }

  /** Contact c enters the counts of group g. */
  ghost function MoreContact(w: World, c: Node, g: Node): World
    requires HasCounts(w, c) && HasCounts(w, g)
  {
    w.(total := w.total[g := w.total[g] + 1],
       current := w.current[g := w.current[g] + Bit(w.current[c] > 0)],
       online := w.online[g := w.online[g] + Bit(w.online[c] > 0)])
  }

  /** c has left its group and hangs loose. */
  ghost function Loosened(w: World, c: Node): World
    requires WellFormed(w) && c in w.par && c.kind.Contact?
  {
    LessContact(Removed(w, c), c, w.par[c])
  }

  /** The loose contact c has joined group g, right after a or in front. */
  ghost function Fastened(w: World, c: Node, g: Node, a: Node?): World
    requires Loose(w, c) && g in w.kids
  {
    MoreContact(Inserted(w, c, g, a), c, g)
  }

  lemma LoosenedSizes(w: World, c: Node)
    requires WellFormed(w) && SizesOK(w) && c in w.par && c.kind.Contact?
    ensures SizesOK(Loosened(w, c))
  {
    ContactLeftConsistent(w, ConnectedF(w.connected), w.current, c);
    ContactRemoved(w, ConnectedF(w.connected), c);
  }

  lemma LoosenedOnline(w: World, c: Node)
    requires WellFormed(w) && OnlineOK(w) && c in w.par && c.kind.Contact?
    ensures OnlineOK(Loosened(w, c))
  {
    ContactLeftConsistent(w, OnlineF(w.info, w.connected), w.online, c);
  }

  lemma FastenedSizes(w: World, c: Node, g: Node, a: Node?)
    requires Loose(w, c) && SizesOK(w) && g in w.kids && g.kind.Group? && (a != null ==> a in w.kids[g])
    ensures SizesOK(Fastened(w, c, g, a))
  {
    ContactJoinedConsistent(w, ConnectedF(w.connected), w.current, c, g, a);
    ContactInserted(w, ConnectedF(w.connected), c, g, a);
  }

  lemma FastenedOnline(w: World, c: Node, g: Node, a: Node?)
    requires Loose(w, c) && OnlineOK(w) && g in w.kids && g.kind.Group? && (a != null ==> a in w.kids[g])
    ensures OnlineOK(Fastened(w, c, g, a))
  {
    ContactJoinedConsistent(w, OnlineF(w.info, w.connected), w.online, c, g, a);
  }

  /** The hash after the buddies s have been taken from group h to group g, one by one. */
  ghost function Rekeyed(index: map<Key, Node>, norm: string -> string, s: seq<Node>, h: Node?, g: Node?)
    : map<Key, Node>
  {
    if s == [] then index
    else
      var b := s[|s| - 1];
      var before := Rekeyed(index, norm, s[..|s| - 1], h, g);
      (before - {Key(norm(b.name), b.account, h)})[Key(norm(b.name), b.account, g) := b]
  }

  /** The keys after the buddies s have been taken to group g. */
  ghost function KeysTo(keys: map<Node, Key>, norm: string -> string, s: seq<Node>, g: Node?): map<Node, Key> {
    map b: Node | b in keys :: if b in s then Key(norm(b.name), b.account, g) else keys[b]
  }

  lemma {:induction false} RekeyedInverse(keys: map<Node, Key>, index: map<Key, Node>, norm: string -> string,
        s: seq<Node>, h: Node?, g: Node?)
    requires Inverse(keys, index) && Distinct(s)
    requires forall i :: 0 <= i < |s| ==> s[i] in keys && keys[s[i]] == Key(norm(s[i].name), s[i].account, h)
    requires forall i :: 0 <= i < |s| ==> Key(norm(s[i].name), s[i].account, g) !in index
    ensures Inverse(KeysTo(keys, norm, s, g), Rekeyed(index, norm, s, h, g))
  {
    if s == [] {
      assert KeysTo(keys, norm, s, g) == keys;
    } else {
      var n := |s| - 1;
      var t, b := s[..n], s[n];
      RekeyedInverse(keys, index, norm, t, h, g);
      var ks, ix := KeysTo(keys, norm, t, g), Rekeyed(index, norm, t, h, g);
      assert b !in t;
      InverseRemoved(ks, ix, b);
      var k := Key(norm(b.name), b.account, g);
      assert k !in ix;
      assert (ix - {keys[b]}) - {k} == ix - {keys[b]};
      InverseAdded(ks - {b}, ix - {keys[b]}, b, k);
      assert KeysTo(keys, norm, s, g) == (ks - {b})[b := k];
    }
  }

  /** A node that has been made but not yet been put into the list. */
  ghost predicate Unlisted(w: World, n: Node) {
    && n in w.nodes && n !in w.par && n !in w.kids && Childless(w.par, n)
    && HasCounts(w, n) && w.total[n] == 0 && w.current[n] == 0 && w.online[n] == 0
    && n in w.prio && w.prio[n] == null
  }

  /** c, so far unlisted, gets an empty list of buddies. */
  ghost function Adopted(w: World, c: Node): World {
    w.(kids := w.kids[c := []])
  }

  /** The contact c hangs loose: taken out of its group, or new and empty. */
  ghost function Lifted(w: World, c: Node): World
    requires WellFormed(w) && c.kind.Contact?
  {
    if c in w.par then Loosened(w, c) else Adopted(w, c)
  }

  ghost function ContactIndex(w: World, norm: string -> string, c: Node, g: Node): map<Key, Node>
    requires WellFormed(w) && c.kind.Contact?
  {
    if c in w.par && w.par[c] != g then Rekeyed(w.index, norm, w.kids[c], w.par[c], g) else w.index
  }

  ghost function ContactPlaced(w: World, norm: string -> string, c: Node, g: Node, a: Node?): World
    requires WellFormed(w) && ContactPlaceable(w, c, g, a)
  {
    LiftedLoose(w, c, g, a);
    Fastened(Lifted(w, c).(index := ContactIndex(w, norm, c, g)), c, g, a)
  }

  /** The contact c can be put into group g, after a or in front. */
  ghost predicate ContactPlaceable(w: World, c: Node, g: Node, a: Node?) {
    && c.kind.Contact? && (c in w.par || Unlisted(w, c)) && c != a
    && g in w.kids && g.kind.Group? && (a != null ==> a in w.kids[g])
  }

  /** None of the buddies of c has the key that another buddy has in group g. */
  ghost predicate NoContactClash(w: World, norm: string -> string, c: Node, g: Node) {
    c in w.par && w.par[c] != g ==>
      c in w.kids && forall i :: 0 <= i < |w.kids[c]| ==>
        Key(norm(w.kids[c][i].name), w.kids[c][i].account, g) !in w.index
  }

  lemma LiftedLoose(w: World, c: Node, g: Node, a: Node?)
    requires WellFormed(w) && ContactPlaceable(w, c, g, a)
    ensures var v := Lifted(w, c); Loose(v, c) && g in v.kids && (a != null ==> a in v.kids[g])
  {
    if c in w.par {
      ContactLoosened(w, c);
      if w.par[c] == g { WithoutMembers(w.kids[g], c); }
    } else {
      AdoptedLoose(w, c);
    }
  }

  lemma AdoptedLoose(w: World, c: Node)
    requires WellFormed(w) && Unlisted(w, c) && c.kind.Contact?
    ensures Loose(Adopted(w, c), c)
  {
    var v := Adopted(w, c);
    forall n: Node | n in v.par ensures KindOK(v.kids, v.par, n) { assert KindOK(w.kids, w.par, n); }
  }

  lemma AdoptedConsistent(w: World, f: Node -> bool, m: map<Node, int>, c: Node)
    requires WellFormed(w) && c !in w.par && c !in w.kids && Consistent(w.kids, f, m) && c in m && m[c] == 0
    ensures Consistent(Adopted(w, c).kids, f, m)
  {
    var v := Adopted(w, c);
    forall p: Node | p in v.kids ensures m[p] == Tally(v.kids, f, p) {
      if p != c {
        forall i | 0 <= i < |w.kids[p]| ensures w.kids[p][i] != c { assert w.kids[p][i] in w.kids[p]; }
        CountAgree(w.kids[p], LiveF(w.kids, f), LiveF(v.kids, f));
      }
    }
  }

  lemma LiftedSizes(w: World, c: Node)
    requires WellFormed(w) && SizesOK(w) && c.kind.Contact? && (c in w.par || Unlisted(w, c))
    ensures SizesOK(Lifted(w, c))
  {
    if c in w.par { LoosenedSizes(w, c); } else { AdoptedConsistent(w, ConnectedF(w.connected), w.current, c); }
  }

  lemma LiftedOnline(w: World, c: Node)
    requires WellFormed(w) && OnlineOK(w) && c.kind.Contact? && (c in w.par || Unlisted(w, c))
    ensures OnlineOK(Lifted(w, c))
  {
    if c in w.par { LoosenedOnline(w, c); } else { AdoptedConsistent(w, OnlineF(w.info, w.connected), w.online, c); }
  }

  lemma ContactPlacedWellFormed(w: World, norm: string -> string, c: Node, g: Node, a: Node?)
    requires WellFormed(w) && ContactPlaceable(w, c, g, a)
    ensures WellFormed(ContactPlaced(w, norm, c, g, a))
  {
    LiftedLoose(w, c, g, a);
    ContactFastened(Lifted(w, c).(index := ContactIndex(w, norm, c, g)), c, g, a);
  }

  /** Moving a contact keeps the sizes and the online counts, whatever its buddies are doing. */
  lemma ContactPlacedSizes(w: World, norm: string -> string, c: Node, g: Node, a: Node?)
    requires WellFormed(w) && SizesOK(w) && ContactPlaceable(w, c, g, a)
    ensures var v := ContactPlaced(w, norm, c, g, a); WellFormed(v) && SizesOK(v)
  {
    hide KindsOK, OwnersOK, NodesOK, ListsOK, Fastened, Lifted, ContactIndex;
    LiftedLoose(w, c, g, a);
    LiftedSizes(w, c);
    var u := Lifted(w, c).(index := ContactIndex(w, norm, c, g));
    ContactPlacedWellFormed(w, norm, c, g, a);
    FastenedSizes(u, c, g, a);
  }

  lemma ContactPlacedOnline(w: World, norm: string -> string, c: Node, g: Node, a: Node?)
    requires WellFormed(w) && ContactPlaceable(w, c, g, a) && OnlineOK(w)
    ensures OnlineOK(ContactPlaced(w, norm, c, g, a))
  {
    hide KindsOK, OwnersOK, NodesOK, ListsOK, Fastened, Lifted, ContactIndex;
    LiftedLoose(w, c, g, a);
    var u := Lifted(w, c).(index := ContactIndex(w, norm, c, g));
    LiftedOnline(w, c);
    FastenedOnline(u, c, g, a);
  }

  lemma ContactPlacedCounts(w: World, norm: string -> string, c: Node, g: Node, a: Node?)
    requires WellFormed(w) && SizesOK(w) && ContactPlaceable(w, c, g, a)
    ensures var v := ContactPlaced(w, norm, c, g, a); WellFormed(v) && SizesOK(v) && (OnlineOK(w) ==> OnlineOK(v))
  {
    hide SizesOK, OnlineOK, ContactPlaced, ContactPlaceable;
    ContactPlacedSizes(w, norm, c, g, a);
    if OnlineOK(w) { ContactPlacedOnline(w, norm, c, g, a); }
  }

  /** Moving a contact re-keys exactly its buddies. */
  lemma ContactPlacedIndex(w: World, norm: string -> string, c: Node, g: Node, a: Node?)
    requires WellFormed(w) && IndexOK(w, norm, w.index) && ContactPlaceable(w, c, g, a) && NoContactClash(w, norm, c, g)
    ensures var v := ContactPlaced(w, norm, c, g, a); IndexOK(v, norm, v.index)
  {
    ContactRekeyed(w, norm, c, g);
    ContactPlacedPar(w, norm, c, g, a);
  }

  lemma ContactPlacedPar(w: World, norm: string -> string, c: Node, g: Node, a: Node?)
    requires WellFormed(w) && ContactPlaceable(w, c, g, a)
    ensures var v := ContactPlaced(w, norm, c, g, a);
      v.par == w.par[c := g] && v.index == ContactIndex(w, norm, c, g)
  {
    hide WellFormed, ContactPlaceable, Lifted, ContactIndex, Loose;
    LiftedRest(w, c, g, a);
    assert (w.par - {c})[c := g] == w.par[c := g];
  }

  lemma LiftedRest(w: World, c: Node, g: Node, a: Node?)
    requires WellFormed(w) && ContactPlaceable(w, c, g, a)
    ensures Lifted(w, c).par == w.par - {c} && g in Lifted(w, c).kids && c.kind.Contact?
  {
  }

  lemma ContactRekeyed(w: World, norm: string -> string, c: Node, g: Node)
    requires WellFormed(w) && IndexOK(w, norm, w.index) && NoContactClash(w, norm, c, g)
    requires c.kind.Contact? && (c in w.par || Childless(w.par, c)) && g in w.par
    ensures Inverse(Keys(w.par[c := g], norm), ContactIndex(w, norm, c, g))
  {
    if c in w.par && w.par[c] != g {
      ContactKeys(w, norm, c, g);
      ContactOldKeys(w, norm, c);
      RekeyedInverse(Keys(w.par, norm), w.index, norm, w.kids[c], w.par[c], g);
    } else {
      SameKeys(w.par, norm, c, g);
    }
  }

  lemma SameKeys(par: map<Node, Node?>, norm: string -> string, c: Node, g: Node)
    requires !c.kind.Buddy? && (if c in par then par[c] == g else Childless(par, c))
    ensures Keys(par[c := g], norm) == Keys(par, norm)
  {
  }

  lemma ContactOldKeys(w: World, norm: string -> string, c: Node)
    requires WellFormed(w) && c in w.par && c.kind.Contact?
    ensures Distinct(w.kids[c])
    ensures var s, keys := w.kids[c], Keys(w.par, norm);
      forall i :: 0 <= i < |s| ==> s[i] in keys && keys[s[i]] == Key(norm(s[i].name), s[i].account, w.par[c])
  {
    var s, keys := w.kids[c], Keys(w.par, norm);
    forall i | 0 <= i < |s| ensures s[i] in keys && keys[s[i]] == Key(norm(s[i].name), s[i].account, w.par[c]) {
      assert s[i] in s;
    }
  }

  lemma ContactKeys(w: World, norm: string -> string, c: Node, g: Node)
    requires WellFormed(w) && c in w.par && c.kind.Contact?
    ensures Keys(w.par[c := g], norm) == KeysTo(Keys(w.par, norm), norm, w.kids[c], g)
  {
  }

  lemma ContactPlacedNames(w: World, norm: string -> string, c: Node, g: Node, a: Node?)
    requires WellFormed(w) && NamesOK(w) && ContactPlaceable(w, c, g, a) && WellFormed(ContactPlaced(w, norm, c, g, a))
    ensures NamesOK(ContactPlaced(w, norm, c, g, a))
  {
    assert Lifted(w, c).kids[null] == w.kids[null];
  }

  lemma ContactPlacedPriorities(w: World, norm: string -> string, c: Node, g: Node, a: Node?)
    requires WellFormed(w) && PrioritiesOK(w) && ContactPlaceable(w, c, g, a)
    ensures PrioritiesOK(ContactPlaced(w, norm, c, g, a))
  {
    var v := ContactPlaced(w, norm, c, g, a);
    forall d: Node | d in v.kids && d.kind.Contact? ensures PriorityAt(v, d) {
      if d in w.kids { assert PriorityAt(w, d); }
    }
  }

  lemma ContactPlacedInv(w: World, norm: string -> string, c: Node, g: Node, a: Node?)
    requires Inv(w, norm) && ContactPlaceable(w, c, g, a) && NoContactClash(w, norm, c, g)
    ensures Inv(ContactPlaced(w, norm, c, g, a), norm)
  {
    ContactPlacedCounts(w, norm, c, g, a);
    ContactPlacedIndex(w, norm, c, g, a);
    ContactPlacedNames(w, norm, c, g, a);
  }

  lemma ContactPlacedTimers(w: World, norm: string -> string, c: Node, g: Node, a: Node?)
    requires WellFormed(w) && TimersOK(w) && ContactPlaceable(w, c, g, a)
    ensures TimersOK(ContactPlaced(w, norm, c, g, a))
  {
    ContactPlacedPar(w, norm, c, g, a);
    ContactPlacedInfo(w, norm, c, g, a);
    TimersStay(w, ContactPlaced(w, norm, c, g, a));
  }

  lemma ContactPlacedInfo(w: World, norm: string -> string, c: Node, g: Node, a: Node?)
    requires WellFormed(w) && ContactPlaceable(w, c, g, a)
    ensures ContactPlaced(w, norm, c, g, a).info == w.info
  {
  }

  /** Moving a contact keeps everything. */
  lemma ContactPlacedKeeps(w: World, norm: string -> string, c: Node, g: Node, a: Node?)
    requires Inv(w, norm) && ContactPlaceable(w, c, g, a) && NoContactClash(w, norm, c, g)
    ensures var v := ContactPlaced(w, norm, c, g, a); Inv(v, norm) && Keeps(w, v)
  {
    ContactPlacedInv(w, norm, c, g, a);
    ContactPlacedPar(w, norm, c, g, a);
    if PrioritiesOK(w) { ContactPlacedPriorities(w, norm, c, g, a); }
    if OnlineOK(w) { ContactPlacedCounts(w, norm, c, g, a); }
    if TimersOK(w) { ContactPlacedTimers(w, norm, c, g, a); }
  }
}
