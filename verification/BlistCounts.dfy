/** What the cached counts count: sets of nodes, and how many there are in them. */
module BlistCounts {
  import opened BlistModel

  ghost function Those(s: seq<Node>, f: Node -> bool): set<Node> {
    set x: Node | x in s && f(x)
  }

  lemma {:induction false} CountIs(s: seq<Node>, f: Node -> bool)
    requires Distinct(s)
    ensures Count(s, f) == |Those(s, f)|
  {
    if s == [] {
      assert Those(s, f) == {};
    } else {
      CountIs(s[1..], f);
      assert s[0] !in s[1..];
      assert Those(s, f) == Those(s[1..], f) + if f(s[0]) then {s[0]} else {};
    }
  }

  lemma {:induction false} SomeCounted(s: seq<Node>, f: Node -> bool)
    ensures Count(s, f) > 0 <==> exists x: Node :: x in s && f(x)
  {
    if s != [] { SomeCounted(s[1..], f); }
  }

  ghost predicate SomeConnected(w: World, c: Node) {
    c in w.kids && exists b: Node :: b in w.kids[c] && b.account in w.connected
  }

  ghost predicate SomeOnline(w: World, c: Node) {
    c in w.kids && exists b: Node :: b in w.kids[c] && b in w.info && w.info[b].present != Offline
  }

  /** The buddies and chats of connected accounts under p, and the contacts that have such a buddy. */
  ghost function CurrentOf(w: World, p: Node): set<Node>
    requires p in w.kids
  {
    set x: Node | x in w.kids[p] && if x.kind.Contact? then SomeConnected(w, x) else x.account in w.connected
  }

  /** The buddies under p that are not Offline, the contacts that have such a buddy, and the chats of connected
      accounts. */
  ghost function OnlineOf(w: World, p: Node): set<Node>
    requires p in w.kids
  {
    set x: Node | x in w.kids[p] &&
      if x.kind.Contact? then SomeOnline(w, x)
      else if x.kind.Chat? then x.account in w.connected
      else x in w.info && w.info[x].present != Offline
  }

  lemma KindOfChild(w: World, p: Node, x: Node)
    requires WellFormed(w) && p in w.kids && x in w.kids[p]
    ensures if p.kind.Contact? then x.kind.Buddy? else x.kind.Chat? || (x.kind.Contact? && x in w.kids)
  {
    assert x in w.par && w.par[x] == p;
  }

  /** The cached sizes and online counts are the numbers of just these. */
  lemma CountsAre(w: World, p: Node)
    requires WellFormed(w) && SizesOK(w) && p in w.kids
    ensures p.kind.Contact? ==> w.total[p] == |w.kids[p]|
    ensures p in w.current && w.current[p] == |CurrentOf(w, p)|
    ensures OnlineOK(w) ==> p in w.online && w.online[p] == |OnlineOf(w, p)|
  {
    CurrentIs(w, p);
    if OnlineOK(w) { OnlineIs(w, p); }
  }

  lemma CurrentIs(w: World, p: Node)
    requires WellFormed(w) && p in w.kids
    ensures Tally(w.kids, ConnectedF(w.connected), p) == |CurrentOf(w, p)|
  {
    var f := ConnectedF(w.connected);
    var h := if p.kind.Contact? then f else LiveF(w.kids, f);
    forall x: Node | x in w.kids[p] ensures h(x) <==> x in CurrentOf(w, p) {
      KindOfChild(w, p, x);
      if x in w.kids { SomeCounted(w.kids[x], f); }
    }
    CountIs(w.kids[p], h);
    assert Those(w.kids[p], h) == CurrentOf(w, p);
  }

  lemma OnlineIs(w: World, p: Node)
    requires WellFormed(w) && p in w.kids
    ensures Tally(w.kids, OnlineF(w.info, w.connected), p) == |OnlineOf(w, p)|
  {
    var f := OnlineF(w.info, w.connected);
    var h := if p.kind.Contact? then f else LiveF(w.kids, f);
    forall x: Node | x in w.kids[p] ensures h(x) <==> x in OnlineOf(w, p) {
      KindOfChild(w, p, x);
      if x in w.kids {
        SomeCounted(w.kids[x], f);
        forall b: Node | b in w.kids[x] ensures b.kind.Buddy? || !x.kind.Contact? { KindOfChild(w, x, b); }
      }
    }
    CountIs(w.kids[p], h);
    assert Those(w.kids[p], h) == OnlineOf(w, p);
  }
}
