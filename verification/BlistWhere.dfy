/** Where nodes are after a move: the lists of children themselves, before and after. */
module BlistWhere {
  import opened BlistModel
  import opened BlistMoves
  import opened BlistContacts
  import opened BlistGroups
  import opened BlistDefaults

  type Kids = map<Node?, seq<Node>>

  // ----------------------------------------------------------------- one list of children

  /** t is s, to which x, which was not in it, has been added right after a, or in front. */
  ghost predicate AddedAt(s: seq<Node>, a: Node?, x: Node, t: seq<Node>, i: nat) {
    && i <= |s| && t == s[..i] + [x] + s[i..]
    && if a == null then i == 0 else i > 0 && s[i - 1] == a
  }

  lemma AddedSpot(s: seq<Node>, a: Node?, x: Node) returns (i: nat)
    requires Distinct(s) && (a != null ==> a in s)
    ensures AddedAt(s, a, x, AddAfter(s, a, x), i)
  {
    if a == null {
      i := 0;
      assert s[..0] + [x] + s[0..] == [x] + s;
    } else {
      var k :| 0 <= k < |s| && s[k] == a;
      AddAfterAt(s, k, x);
      i := k + 1;
    }
  }

  lemma AddedLast(s: seq<Node>, x: Node)
    requires Distinct(s)
    ensures AddAfter(s, Last(s), x) == s + [x]
  {
    if s != [] { AddAfterAt(s, |s| - 1, x); }
  }

  // -------------------------------------------------------------------------------- buddies

  /** The contact that goes when b leaves it, because it has no other buddy; null if none goes. */
  ghost function Emptied(kids: Kids, par: map<Node, Node?>, b: Node): Node? {
    if b in par && par[b] in kids && kids[par[b]] == [b] then par[b] else null
  }

  /** b has left its contact d, if it had one; a contact without buddies has left its group. */
  ghost function KidsWithout(kids: Kids, par: map<Node, Node?>, b: Node): Kids {
    if b !in par || par[b] !in kids then kids
    else
      var d := par[b];
      if kids[d] != [b] then kids[d := Without(kids[d], b)]
      else if d == null || d !in par || par[d] !in kids then kids
      else (kids - {d})[par[d] := Without(kids[par[d]], d)]
  }

  lemma DetachedLists(w: World, b: Node)
    requires WellFormed(w) && b in w.par && b.kind.Buddy?
    ensures Detached(w, b).kids == KidsWithout(w.kids, w.par, b)
  {
    var d: Node := w.par[b];
    var l := Left(w, b);
    WithoutNothing(w.kids[d], b);
    assert l.kids == w.kids[d := Without(w.kids[d], b)] && l.par == w.par - {b};
    if w.kids[d] == [b] {
      assert w.par[d] != d && d in w.kids[w.par[d]];
      assert Pruned(l, d).kids == (w.kids - {d})[w.par[d] := Without(w.kids[w.par[d]], d)];
    }
  }

  /** What a buddy that goes leaves behind: its contact without it, or if it was the last, the group without its
      contact; nothing else changes. */
  lemma LeavesBehind(w: World, b: Node, d: Node, g: Node)
    requires WellFormed(w) && b in w.par && b.kind.Buddy? && w.par[b] == d && d in w.par && w.par[d] == g
    ensures d in w.kids && g in w.kids && d != g
    ensures var v := Detached(w, b).kids;
      if w.kids[d] == [b] then d !in v && g in v && v[g] == Without(w.kids[g], d) && v.Keys == w.kids.Keys - {d}
      else d in v && v[d] == Without(w.kids[d], b) && v.Keys == w.kids.Keys && v[g] == w.kids[g]
    ensures forall p: Node? {:trigger p in Detached(w, b).kids} ::
      p in w.kids && p != d && p != g ==> p in Detached(w, b).kids && Detached(w, b).kids[p] == w.kids[p]
  {
    DetachedLists(w, b);
    hide Without, Detached;
  }

  lemma WithoutNothing(s: seq<Node>, x: Node)
    requires x in s
    ensures Without(s, x) == [] <==> s == [x]
  {
  }

  lemma PlacedLists(w: World, norm: string -> string, b: Node, c: Node, a: Node?, r: Node?, q: Node?)
    requires WellFormed(w) && Placeable(w, b, c, a)
    ensures var k := KidsWithout(w.kids, w.par, b);
      c in k && (a != null ==> a in k[c]) && Distinct(k[c])
      && Placed(w, norm, b, c, a, r, q).kids == k[c := AddAfter(k[c], a, b)]
  {
    PlacedRest(w, norm, b, c, a, r, q);
    if b in w.par {
      DetachedLists(w, b);
      TargetStays(w, b, c, a);
      DetachedWellFormed(w, b);
    }
  }

  lemma ContactPlacedLists(w: World, norm: string -> string, c: Node, g: Node, a: Node?)
    requires WellFormed(w) && ContactPlaceable(w, c, g, a)
    ensures var h := if c in w.par then w.par[c] else g;
      var k := if c in w.par && w.par[c] in w.kids then w.kids[w.par[c] := Without(w.kids[w.par[c]], c)]
               else w.kids[c := []];
      g in k && (a != null ==> a in k[g]) && Distinct(k[g])
      && ContactPlaced(w, norm, c, g, a).kids == k[g := AddAfter(k[g], a, c)]
  {
    LiftedLoose(w, c, g, a);
    if c in w.par { WithoutMembers(w.kids[w.par[c]], c); }
  }

  lemma WithContactKids(w: World, norm: string -> string, c: Node, g: Node)
    requires WellFormed(w) && c.kind.Contact? && c !in w.nodes && g in w.kids && g.kind.Group?
    ensures WithContact(w, norm, c, g).kids == w.kids[c := []][g := w.kids[g] + [c]]
  {
    NewContactPlaceable(w, c, g);
    ContactPlacedLists(Admitted(w, c, ""), norm, c, g, Last(w.kids[g]));
    AddedLast(w.kids[g], c);
  }

  lemma WithoutNone(s: seq<Node>, x: Node)
    requires x !in s
    ensures Without(s, x) == s
  {
  }

  lemma WithoutBefore(s: seq<Node>, x: Node, y: Node)
    requires x != y
    ensures Without(s + [y], x) == Without(s, x) + [y]
  {
    if s != [] {
      assert (s + [y])[1..] == s[1..] + [y];
      if s[0] != x { WithoutBefore(s[1..], x, y); }
    }
  }

  lemma WithoutAdded(s: seq<Node>, a: Node?, x: Node, t: seq<Node>, i: nat)
    requires AddedAt(s, a, x, t, i) && x !in s
    ensures Without(t, x) == s && i < |t| && t[i] == x && (if a == null then i == 0 else i > 0 && t[i - 1] == a)
  {
    WithoutHead(s[..i], x, s[i..]);
    assert s[..i] + s[i..] == s;
  }

  lemma {:induction false} WithoutHead(s: seq<Node>, x: Node, t: seq<Node>)
    requires x !in s
    ensures Without(s + [x] + t, x) == s + t
  {
    var u := s + [x] + t;
    if s == [] {
      assert u == [x] + t && u[1..] == t;
    } else {
      assert u[1..] == s[1..] + [x] + t && u[0] == s[0];
      WithoutHead(s[1..], x, t);
    }
  }

  /** b has been put into contact c, which k has already, and i is its place there. */
  ghost predicate Seated(k: Kids, v: Kids, b: Node, c: Node, a: Node?, i: nat) {
    && c in k && c in v && b !in k[c] && v == k[c := v[c]] && AddedAt(k[c], a, b, v[c], i)
  }

  lemma PlacedSeat(w: World, norm: string -> string, b: Node, c: Node, a: Node?, r: Node?, q: Node?) returns (i: nat)
    requires WellFormed(w) && Placeable(w, b, c, a)
    ensures Seated(KidsWithout(w.kids, w.par, b), Placed(w, norm, b, c, a, r, q).kids, b, c, a, i)
  {
    PlacedLists(w, norm, b, c, a, r, q);
    var k := KidsWithout(w.kids, w.par, b);
    i := AddedSpot(k[c], a, b);
    NotSeated(w, b, c);
  }

  lemma NotSeated(w: World, b: Node, c: Node)
    requires WellFormed(w) && b.kind.Buddy? && c in KidsWithout(w.kids, w.par, b) && c.kind.Contact?
    ensures b !in KidsWithout(w.kids, w.par, b)[c]
  {
    if b in w.par {
      var d: Node := w.par[b];
      WithoutMembers(w.kids[d], b);
      assert d.kind.Contact? && b in w.kids[d];
      assert c in w.kids && c != d ==> b !in w.kids[c];
    } else {
      assert c in w.kids && b !in w.kids[c];
    }
  }

  /** What the contact c of b is, and where b stands in it. */
  ghost predicate InContact(k: Kids, par: map<Node, Node?>, v: Kids, b: Node, contact: Node?, a: Node?, c: Node, i: nat)
  {
    && c in k && c in v && i < |v[c]| && v[c][i] == b && Without(v[c], b) == Without(k[c], b)
    && (if a != null then a in par && c == par[a] && i > 0 && v[c][i - 1] == a else c == contact && i == 0)
    && v == KidsWithout(k, par, b)[c := v[c]]
  }

  lemma AddedInContact(m: World, w: World, norm: string -> string, b: Node, contact: Node?, g: Node?, a: Node?,
        c: Node, r: Node?, q: Node?) returns (i: nat)
    requires WellFormed(m) && BuddyAdded(m, w, norm, b, contact, g, a, c, r, q) && !Stays(m, b, contact, a)
    requires a != null || contact != null
    ensures InContact(m.kids, m.par, w.kids, b, contact, a, c, i)
  {
    i := PlacedSeat(m, norm, b, c, a, r, q);
    var k := KidsWithout(m.kids, m.par, b);
    SeatedRest(m, b, c, a);
    WithoutAdded(k[c], a, b, w.kids[c], i);
  }

  lemma SeatedRest(m: World, b: Node, c: Node, a: Node?)
    requires WellFormed(m) && Placeable(m, b, c, a)
    ensures c in KidsWithout(m.kids, m.par, b) && KidsWithout(m.kids, m.par, b)[c] == Without(m.kids[c], b)
  {
    if b in m.par && m.par[b] == c {
      assert m.kids[c] != [b];
    } else {
      assert b !in m.kids[c];
      WithoutNone(m.kids[c], b);
      if b in m.par { assert m.par[m.par[b]] != c; }
    }
  }

  /** The contact c is new and has b only, and stands at the end of group g; what b has left may be gone. */
  ghost predicate InNewContact(k: Kids, par: map<Node, Node?>, v: Kids, b: Node, g: Node?, c: Node) {
    && c !in k && c in v && v[c] == [b] && g != null && g in k && g in v
    && v[g] == (if Emptied(k, par, b) == null then k[g] else Without(k[g], Emptied(k, par, b))) + [c]
    && v == KidsWithout(k[g := k[g] + [c]], par, b)[c := [b]]
  }

  lemma AddedInNew(m: World, w: World, norm: string -> string, b: Node, g: Node?, c: Node, r: Node?, q: Node?)
    requires WellFormed(m) && b in m.nodes && BuddyAdded(m, w, norm, b, null, g, null, c, r, q)
    requires !Stays(m, b, null, null) && g != null && g in m.kids && g.kind.Group?
    ensures InNewContact(m.kids, m.par, w.kids, b, g, c)
  {
    AddedNewIs(m, w, norm, b, g, c, r, q);
    Around(m, b, g, c);
    hide WellFormed, BuddyAdded, Placed, WithContact, Placeable, InNewContact, Seated, KidsWithout;
    var n := WithContact(m, norm, c, g);
    WithContactKids(m, norm, c, g);
    WithContactPar(m, norm, c, g);
    var i := PlacedSeat(n, norm, b, c, null, r, q);
    NewSeat(m.kids, m.par, n.kids, w.kids, n.par, b, g, c, i);
  }

  lemma AddedNewIs(m: World, w: World, norm: string -> string, b: Node, g: Node?, c: Node, r: Node?, q: Node?)
    requires WellFormed(m) && BuddyAdded(m, w, norm, b, null, g, null, c, r, q)
    requires !Stays(m, b, null, null) && g != null && g in m.kids && g.kind.Group?
    ensures c.kind.Contact? && c !in m.nodes && b.kind.Buddy?
    ensures var n := WithContact(m, norm, c, g);
      WellFormed(n) && Placeable(n, b, c, null) && w == Placed(n, norm, b, c, null, r, q)
  {
    hide WithContact, Placed;
  }

  /** b hangs apart from its contact and group, and from group g and the new node c. */
  ghost predicate Apart(k: Kids, par: map<Node, Node?>, b: Node, g: Node, c: Node) {
    && c !in k && g in k && c != b && c != g
    && (b in par ==>
        && par[b] in k && par[b] != null && par[b] in par && par[par[b]] in k && par[b] != c && par[b] != g
        && par[par[b]] != par[b] && par[par[b]] != c && (par[b] in k[g] <==> par[par[b]] == g))
  }

  lemma Around(m: World, b: Node, g: Node, c: Node)
    requires WellFormed(m) && b.kind.Buddy? && g in m.kids && g.kind.Group? && c !in m.nodes && c.kind.Contact?
    ensures Apart(m.kids, m.par, b, g, c)
  {
  }

  lemma NewSeat(k: Kids, par: map<Node, Node?>, n: Kids, v: Kids, par': map<Node, Node?>, b: Node, g: Node, c: Node,
        i: nat)
    requires Apart(k, par, b, g, c) && n == k[c := []][g := k[g] + [c]] && par' == par[c := g]
    requires Seated(KidsWithout(n, par', b), v, b, c, null, i)
    ensures InNewContact(k, par, v, b, g, c)
  {
    var u := KidsWithout(k[g := k[g] + [c]], par, b);
    NewWithout(k, par, n, par', b, g, c);
    assert KidsWithout(n, par', b)[c] == [] && v[c] == [b];
    assert v == u[c := [b]];
    if b in par {
      WithoutBefore(k[g], par[b], c);
      if par[b] !in k[g] { WithoutNone(k[g], par[b]); }
    }
  }

  lemma NewWithout(k: Kids, par: map<Node, Node?>, n: Kids, par': map<Node, Node?>, b: Node, g: Node, c: Node)
    requires Apart(k, par, b, g, c) && n == k[c := []][g := k[g] + [c]] && par' == par[c := g]
    ensures KidsWithout(n, par', b) == KidsWithout(k[g := k[g] + [c]], par, b)[c := []]
  {
    hide Without;
  }

  // -------------------------------------------------------------- contacts, chats and groups

  /** x stands in the list of g at place i, right after a or in front, and nowhere else; all other lists and the order
      of the others are what they were. */
  ghost predicate Moved(k: Kids, par: map<Node, Node?>, v: Kids, x: Node, g: Node?, a: Node?, i: nat) {
    && g in k && g in v && i < |v[g]| && v[g][i] == x && Without(v[g], x) == Without(k[g], x)
    && (if a == null then i == 0 else i > 0 && v[g][i - 1] == a)
    && (forall p: Node? {:trigger p in v} :: p in k && p != g ==>
          p in v && v[p] == if x in par && par[x] == p then Without(k[p], x) else k[p])
    && v.Keys == k.Keys + (if x.kind.Contact? || x.kind.Group? then {x} else {})
    && (x !in k && x in v ==> v[x] == [])
  }

  lemma MovedTo(k: Kids, par: map<Node, Node?>, v: Kids, x: Node, g: Node?, a: Node?, i: nat)
    requires Moved(k, par, v, x, g, a, i)
    ensures g in v && i < |v[g]| && v[g][i] == x && (if a == null then i == 0 else i > 0 && v[g][i - 1] == a)
  {
  }

  /** The lists once x has left its own, if it was in one. */
  ghost function Lone(k: Kids, par: map<Node, Node?>, x: Node): Kids {
    if x in par && par[x] in k then k[par[x] := Without(k[par[x]], x)]
    else if x.kind.Contact? || x.kind.Group? then k[x := []]
    else k
  }

  lemma MovedBy(k: Kids, par: map<Node, Node?>, v: Kids, x: Node, g: Node?, a: Node?) returns (i: nat)
    requires g in k && g != x && Distinct(k[g]) && (a != null ==> a in k[g] && a != x)
    requires x in par ==> par[x] in k && par[x] != x && Distinct(k[par[x]]) && (x in k <==> !x.kind.Chat?)
    requires x in k[g] ==> x in par && par[x] == g
    requires x !in par ==> x !in k
    requires !x.kind.Buddy? && g in Lone(k, par, x) && v == Lone(k, par, x)[g := AddAfter(Lone(k, par, x)[g], a, x)]
    ensures Moved(k, par, v, x, g, a, i)
  {
    var s := Lone(k, par, x)[g];
    if x in k[g] { WithoutMembers(k[g], x); } else { WithoutNone(k[g], x); }
    assert s == Without(k[g], x);
    i := AddedSpot(s, a, x);
    WithoutAdded(s, a, x, v[g], i);
  }

  lemma ContactMoved(w: World, norm: string -> string, c: Node, g: Node, a: Node?) returns (i: nat)
    requires WellFormed(w) && ContactPlaceable(w, c, g, a)
    ensures Moved(w.kids, w.par, ContactPlaced(w, norm, c, g, a).kids, c, g, a, i)
  {
    ContactPlacedLists(w, norm, c, g, a);
    i := MovedBy(w.kids, w.par, ContactPlaced(w, norm, c, g, a).kids, c, g, a);
  }

  lemma ChatMoved(w: World, x: Node, g: Node, a: Node?) returns (i: nat)
    requires WellFormed(w) && ChatPlaceable(w, x, g, a)
    ensures Moved(w.kids, w.par, ChatPlaced(w, x, g, a).kids, x, g, a, i)
  {
    ChatLiftedPlace(w, x, g, a);
    i := MovedBy(w.kids, w.par, ChatPlaced(w, x, g, a).kids, x, g, a);
  }

  lemma GroupMoved(w: World, g: Node, a: Node?) returns (i: nat)
    requires WellFormed(w) && GroupPlaceable(w, g, a)
    ensures Moved(w.kids, w.par, GroupPlaced(w, g, a).kids, g, null, a, i)
  {
    GroupLiftedLists(w, g, a);
    i := MovedBy(w.kids, w.par, GroupPlaced(w, g, a).kids, g, null, a);
  }

  lemma GroupAddedMoved(w: World, g: Node, node: Node?) returns (i: nat)
    requires WellFormed(w) && g.kind.Group? && (g in w.par || Unlisted(w, g))
    requires w.kids[null] != [] && node != null && node.kind.Group? && node != g ==> node in w.kids[null]
    ensures var v := GroupAdded(w, g, node).kids;
      var a := if w.kids[null] != [] && node != null && node.kind.Group? then node else null;
      if w.kids[null] != [] && g == node then GroupAdded(w, g, node) == w
      else
        && Moved(w.kids, w.par, v, g, null, a, i)
        && null in v && i < |v[null]| && v[null][i] == g && (if a == null then i == 0 else i > 0 && v[null][i - 1] == a)
  {
    i := 0;
    if w.kids[null] == [] || g != node {
      var a := if w.kids[null] != [] && node != null && node.kind.Group? then node else null;
      assert GroupAdded(w, g, node) == GroupPlaced(w, g, a);
      hide GroupPlaced;
      i := GroupMoved(w, g, a);
      MovedTo(w.kids, w.par, GroupPlaced(w, g, a).kids, g, null, a, i);
    }
  }

  /** The group g of that name is there, at the end of the list, and had no children if it is new. */
  ghost predicate AtTheEnd(k: Kids, nodes: set<Node>, v: Kids, names: map<Node, string>, g: Node, name: string) {
    && null in k && null in v && v[null] == Without(k[null], g) + [g]
    && g in names && names[g] == name && (g !in nodes ==> g in v && v[g] == [])
    && (forall p: Node? {:trigger p in v} :: p in k && p != null && p != g ==> p in v && v[p] == k[p])
    && (g in k ==> g in v && v[g] == k[g])
  }

  lemma DefaultAtTheEnd(w: World, m: World, g: Node, name: string)
    requires WellFormed(w) && DefaultMade(w, m, g, name)
    ensures AtTheEnd(w.kids, w.nodes, m.kids, m.names, g, name)
    ensures g in w.nodes <==> exists h: Node :: h in w.kids[null] && w.names[h] == name
  {
    var v := if g in w.nodes then w else Admitted(w, g, name);
    FoundThere(w, v, g, name);
    assert null in v.kids && v.kids == w.kids;
    GroupAtTheEnd(v, g);
  }

  lemma GroupAtTheEnd(v: World, g: Node)
    requires WellFormed(v) && g.kind.Group? && (g in v.par || Unlisted(v, g))
    ensures var m := GroupAdded(v, g, Last(v.kids[null]));
      && null in m.kids && m.kids[null] == Without(v.kids[null], g) + [g] && m.names == v.names
      && m.kids == Lone(v.kids, v.par, g)[null := m.kids[null]]
  {
    var s := v.kids[null];
    var a := Last(s);
    LastIsGroup(v);
    assert g in v.par ==> v.par[g] == null && g in s;
    PutLast(s, g);
    if a == g {
      assert GroupAdded(v, g, a) == v;
      assert v.kids == v.kids[null := s];
    } else {
      GroupPlacedList(v, g, a);
      assert GroupAdded(v, g, a) == GroupPlaced(v, g, a);
    }
  }

  lemma GroupPlacedList(v: World, g: Node, a: Node?)
    requires WellFormed(v) && g.kind.Group? && (g in v.par || Unlisted(v, g))
    ensures null in v.kids && GroupPlaced(v, g, a).names == v.names
    ensures GroupPlaced(v, g, a).kids ==
      Lone(v.kids, v.par, g)[null := AddAfter(if g in v.par then Without(v.kids[null], g) else v.kids[null], a, g)]
    ensures g !in v.par ==> Without(v.kids[null], g) == v.kids[null]
  {
    assert g in v.par ==> v.par[g] == null;
    if g !in v.par { WithoutNone(v.kids[null], g); }
    hide Without, AddAfter;
  }

  lemma PutLast(s: seq<Node>, x: Node)
    requires Distinct(s)
    ensures Last(s) == x ==> Without(s, x) + [x] == s
    ensures Last(s) != x ==> AddAfter(Without(s, x), Last(s), x) == Without(s, x) + [x]
  {
    if Last(s) == x {
      WithoutAt(s, |s| - 1);
    } else {
      if x in s { WithoutMembers(s, x); } else { WithoutNone(s, x); }
      if s != [] { WithoutLast(s, x); }
      AddedLast(Without(s, x), x);
    }
  }

  lemma {:induction false} WithoutLast(s: seq<Node>, x: Node)
    requires s != [] && s[|s| - 1] != x
    ensures Without(s, x) != [] && Last(Without(s, x)) == Last(s)
  {
    if s[0] != x && |s| > 1 { WithoutLast(s[1..], x); }
  }

  /** Contact or chat x has gone to g, after a or in front; m is the list once g, which may be the default group of
      that name, is there. */
  ghost predicate Stands(u: World, m: World, v: Kids, x: Node, group: Node?, a: Node?, g: Node?, name: string, i: nat) {
    && g != null && (if a != null then a in u.par && g == u.par[a] else group != null ==> g == group)
    && (if a != null || group != null then m == u else AtTheEnd(u.kids, u.nodes, m.kids, m.names, g, name))
    && g in v && i < |v[g]| && v[g][i] == x && (if a == null then i == 0 else i > 0 && v[g][i - 1] == a)
    && Moved(m.kids, m.par, v, x, g, a, i)
  }

  lemma ContactStands(u: World, m: World, norm: string -> string, c: Node, group: Node?, a: Node?, h: Node?)
    returns (i: nat)
    requires WellFormed(u) && (a != null ==> a.kind.Contact? || a.kind.Chat?)
    requires ContactFits(u, norm, c, group, a) && ContactGroup(u, m, norm, c, group, a, h)
    ensures Stands(u, m, ContactPlaced(m, norm, c, h, a).kids, c, group, a, h, "Buddies", i)
  {
    i := ContactMoved(m, norm, c, h, a);
    if a == null && group == null { DefaultAtTheEnd(u, m, h, BUDDIES); }
    hide Moved, AtTheEnd, ContactPlaced, DefaultMade;
    MovedTo(m.kids, m.par, ContactPlaced(m, norm, c, h, a).kids, c, h, a, i);
  }

  lemma ChatStands(u: World, m: World, norm: string -> string, x: Node, group: Node?, a: Node?, h: Node?)
    returns (i: nat)
    requires WellFormed(u) && ChatFits(u, x, group, a) && ChatGroup(u, m, norm, x, group, a, h)
    ensures Stands(u, m, ChatPlaced(m, x, h, a).kids, x, group, a, h, "Chats", i)
  {
    i := ChatMoved(m, x, h, a);
    if a == null && group == null { DefaultAtTheEnd(u, m, h, CHATS); }
    hide Moved, AtTheEnd, ChatPlaced, DefaultMade;
    MovedTo(m.kids, m.par, ChatPlaced(m, x, h, a).kids, x, h, a, i);
  }

  /** b has been asked to go after a, to contact or to group g: it stays if it is there, and otherwise is where it was
      asked to go, at place i of its contact c; m is the list once the group is there. */
  ghost predicate BuddyStands(m: World, w: World, b: Node, contact: Node?, a: Node?, g: Node?, c: Node, i: nat) {
    if b == a || (a == null && contact != null && b in m.par && m.par[b] == contact && contact in m.kids
        && m.kids[contact] != [] && m.kids[contact][0] == b) then
      w == m
    else if a != null || contact != null then
      InContact(m.kids, m.par, w.kids, b, contact, a, c, i)
    else
      c !in m.nodes && InNewContact(m.kids, m.par, w.kids, b, g, c)
  }

  lemma StandsThere(m: World, w: World, norm: string -> string, b: Node, contact: Node?, a: Node?, g: Node?, c: Node,
        r: Node?, q: Node?) returns (i: nat)
    requires WellFormed(m) && b in m.nodes && BuddyAdded(m, w, norm, b, contact, g, a, c, r, q)
    requires g != null ==> g in m.kids && g.kind.Group?
    requires a != null || contact != null || g != null
    ensures BuddyStands(m, w, b, contact, a, g, c, i)
  {
    i := 0;
    if !Stays(m, b, contact, a) {
      if a != null || contact != null {
        i := AddedInContact(m, w, norm, b, contact, g, a, c, r, q);
      } else {
        AddedInNew(m, w, norm, b, g, c, r, q);
      }
    }
    hide WellFormed, InContact, InNewContact, Placed, Before;
  }

  ghost predicate AddedBy(u: World, m: World, w: World, norm: string -> string, b: Node, contact: Node?,
    group: Node?, a: Node?, g: Node?, c: Node, r: Node?, q: Node?)
  {
    && WellFormed(m) && BuddyGroup(u, m, norm, b, contact, group, a, g)
    && BuddyAdded(m, w, norm, b, contact, g, a, c, r, q)
  }

  /** The group a buddy is to go to, if nothing else says where. */
  ghost predicate GroupFor(u: World, m: World, contact: Node?, group: Node?, a: Node?, g: Node?) {
    if a != null || contact != null || group != null then m == u && g == group
    else g != null && AtTheEnd(u.kids, u.nodes, m.kids, m.names, g, "Buddies")
  }

  lemma GroupThere(u: World, m: World, norm: string -> string, b: Node, contact: Node?, group: Node?, a: Node?,
        g: Node?)
    requires BuddyGroup(u, m, norm, b, contact, group, a, g)
    ensures GroupFor(u, m, contact, group, a, g)
    ensures WellFormed(m) && b in m.nodes && (g != null ==> g in m.kids && g.kind.Group?)
    ensures a != null || contact != null || g != null
  {
    hide AtTheEnd, DefaultMade, NoClash;
    if a == null && contact == null && group == null { DefaultAtTheEnd(u, m, g, BUDDIES); }
  }
}
