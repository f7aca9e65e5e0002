/** How the recounted quantities change when one node is moved or changes its state. */
module BlistTally {
  import opened BlistModel

  /** Only the contact c may have changed: group p follows c's own state. */
  lemma GroupTally(w: World, v: World, f: Node -> bool, g: Node -> bool, c: Node, p: Node)
    requires p in w.kids && p in v.kids && w.kids[p] == v.kids[p] && Distinct(w.kids[p])
    requires forall n: Node :: n in w.kids[p] && n != c ==> LiveF(w.kids, f)(n) == LiveF(v.kids, g)(n)
    ensures var s := w.kids[p]; var l, m := LiveF(w.kids, f), LiveF(v.kids, g);
      Count(s, m) == if c in s then Count(s, l) - Bit(l(c)) + Bit(m(c)) else Count(s, l)
  {
    var s := w.kids[p];
    var l, m := LiveF(w.kids, f), LiveF(v.kids, g);
    assert forall i :: 0 <= i < |s| ==> s[i] in s;
    if c in s { CountFlip(s, c, l, m); } else { CountAgree(s, l, m); }
  }

  ghost predicate SameTally(w: World, v: World, f: Node -> bool, g: Node -> bool, p: Node)
  {
    p in w.kids && p in v.kids && Tally(w.kids, f, p) == Tally(v.kids, g, p) && |w.kids[p]| == |v.kids[p]|
  }

  lemma SameKinds(w: World, v: World)
    requires forall n: Node {:trigger n in w.par} :: n in w.par ==> KindOK(w.kids, w.par, n)
    requires forall n: Node :: n in v.par ==> n in w.par && v.par[n] == w.par[n]
    requires v.kids.Keys == w.kids.Keys
    ensures forall n: Node {:trigger n in v.par} :: n in v.par ==> KindOK(v.kids, v.par, n)
  {
    forall n: Node | n in v.par ensures KindOK(v.kids, v.par, n) {
      assert KindOK(w.kids, w.par, n);
      assert n in w.kids <==> n in v.kids.Keys;
    }
  }

  lemma LeafRemoved(w: World, n: Node)
    requires WellFormed(w) && n in w.par && (n.kind.Buddy? || n.kind.Chat?)
    ensures WellFormed(Removed(w, n))
  {
    RemovedLists(w, n);
    SameKinds(w, Removed(w, n));
  }

  lemma LeafInserted(w: World, n: Node, p: Node, a: Node?)
    requires WellFormed(w) && n !in w.par && n !in w.kids && n in w.nodes
    requires p in w.kids && (a != null ==> a in w.kids[p])
    requires if n.kind.Buddy? then p.kind.Contact? else n.kind.Chat? && p.kind.Group?
    ensures WellFormed(Inserted(w, n, p, a))
  {
    InsertedLists(w, n, p, a);
    KindsInserted(w, n, p, a);
  }

  lemma KindsInserted(w: World, n: Node, p: Node?, a: Node?)
    requires KindsOK(w.kids, w.par) && p in w.kids
    requires var v := Inserted(w, n, p, a); KindOK(v.kids, v.par, n)
    ensures var v := Inserted(w, n, p, a); KindsOK(v.kids, v.par)
  {
    var v := Inserted(w, n, p, a);
    forall m: Node | m in v.par ensures KindOK(v.kids, v.par, m) { assert m != n ==> KindOK(w.kids, w.par, m); }
  }

  lemma BuddyRemoved(w: World, f: Node -> bool, b: Node)
    requires WellFormed(w) && b in w.par && b.kind.Buddy?
    ensures var v, c := Removed(w, b), w.par[b]; var g := w.par[c];
      && |v.kids[c]| == |w.kids[c]| - 1
      && Tally(v.kids, f, c) == Tally(w.kids, f, c) - Bit(f(b))
      && Tally(v.kids, f, g) == Tally(w.kids, f, g) - Bit(f(b) && Tally(v.kids, f, c) == 0)
      && forall p: Node {:trigger p in v.kids} :: p in v.kids && p != c && p != g ==> SameTally(w, v, f, f, p)
  {
    var v, c := Removed(w, b), w.par[b];
    var g := w.par[c];
    CountWithout(w.kids[c], b, f);
    assert v.kids[c] == Without(w.kids[c], b);
    forall p: Node | p in v.kids && p.kind.Group?
      ensures Tally(v.kids, f, p) == Tally(w.kids, f, p) - (if p == g then Bit(f(b) && Tally(v.kids, f, c) == 0) else 0)
    {
      GroupTally(w, v, f, f, c, p);
    }
  }

  lemma BuddyInserted(w: World, f: Node -> bool, b: Node, c: Node, a: Node?)
    requires WellFormed(w) && b !in w.par && b !in w.kids && b.kind.Buddy?
    requires c in w.kids && c.kind.Contact? && (a != null ==> a in w.kids[c])
    ensures var v := Inserted(w, b, c, a); var g := w.par[c];
      && |v.kids[c]| == |w.kids[c]| + 1
      && Tally(v.kids, f, c) == Tally(w.kids, f, c) + Bit(f(b))
      && Tally(v.kids, f, g) == Tally(w.kids, f, g) + Bit(f(b) && Tally(w.kids, f, c) == 0)
      && forall p: Node {:trigger p in v.kids} :: p in v.kids && p != c && p != g ==> SameTally(w, v, f, f, p)
  {
    var v, g := Inserted(w, b, c, a), w.par[c];
    CountAddAfter(w.kids[c], a, b, f);
    assert v.kids[c] == AddAfter(w.kids[c], a, b);
    forall p: Node | p in v.kids && p.kind.Group?
      ensures Tally(v.kids, f, p) == Tally(w.kids, f, p) + (if p == g then Bit(f(b) && Tally(w.kids, f, c) == 0) else 0)
    {
      GroupTally(w, v, f, f, c, p);
    }
  }

  lemma ChatRemoved(w: World, f: Node -> bool, x: Node)
    requires WellFormed(w) && x in w.par && x.kind.Chat?
    ensures var v, g := Removed(w, x), w.par[x];
      && Tally(v.kids, f, g) == Tally(w.kids, f, g) - Bit(f(x))
      && forall p: Node {:trigger p in v.kids} :: p in v.kids && p != g ==> SameTally(w, v, f, f, p)
  {
    var v, g := Removed(w, x), w.par[x];
    LeafRemoved(w, x);
    SpliceGroup(w, v, f, g);
    CountWithout(w.kids[g], x, LiveF(w.kids, f));
    assert v.kids[g] == Without(w.kids[g], x);
  }

  lemma ChatInserted(w: World, f: Node -> bool, x: Node, g: Node, a: Node?)
    requires WellFormed(w) && x !in w.par && x !in w.kids && x.kind.Chat? && x in w.nodes
    requires g in w.kids && g.kind.Group? && (a != null ==> a in w.kids[g])
    ensures var v := Inserted(w, x, g, a);
      && Tally(v.kids, f, g) == Tally(w.kids, f, g) + Bit(f(x))
      && forall p: Node {:trigger p in v.kids} :: p in v.kids && p != g ==> SameTally(w, v, f, f, p)
  {
    var v := Inserted(w, x, g, a);
    LeafInserted(w, x, g, a);
    SpliceGroup(w, v, f, g);
    CountAddAfter(w.kids[g], a, x, LiveF(w.kids, f));
    assert v.kids[g] == AddAfter(w.kids[g], a, x);
  }

  /** A splice in a group's own list leaves every contact, so every live bit, as it was. */
  lemma SpliceGroup(w: World, v: World, f: Node -> bool, g: Node)
    requires g in w.kids && g in v.kids && g.kind.Group? && v.kids == w.kids[g := v.kids[g]] && ListsOK(w.kids, w.par)
    requires forall n: Node :: n in w.par && n.kind.Group? ==> w.par[n] == null
    requires ListsOK(v.kids, v.par) && forall n: Node :: n in v.par && n.kind.Group? ==> v.par[n] == null
    ensures Count(v.kids[g], LiveF(v.kids, f)) == Count(v.kids[g], LiveF(w.kids, f))
    ensures forall p: Node {:trigger p in v.kids} :: p in v.kids && p != g ==> SameTally(w, v, f, f, p)
  {
    forall i | 0 <= i < |v.kids[g]| ensures v.kids[g][i] != g { assert v.kids[g][i] in v.kids[g]; }
    CountAgree(v.kids[g], LiveF(v.kids, f), LiveF(w.kids, f));
    forall p: Node | p in v.kids && p != g ensures SameTally(w, v, f, f, p) {
      forall i | 0 <= i < |w.kids[p]| ensures w.kids[p][i] != g { assert w.kids[p][i] in w.kids[p]; }
      CountAgree(w.kids[p], LiveF(w.kids, f), LiveF(v.kids, f));
    }
  }

  /** A world whose contact c hangs loose: it owns its buddies but is in no group. */
  ghost predicate Loose(w: World, c: Node) {
    && Shape(w.kids, w.par, w.nodes, c) && FieldsOK(w)
    && c.kind.Contact? && c in w.kids && c !in w.par
  }

  lemma ContactLoosened(w: World, c: Node)
    requires WellFormed(w) && c in w.par && c.kind.Contact?
    ensures Loose(Removed(w, c), c)
  {
    RemovedLists(w, c);
    SameKinds(w, Removed(w, c));
  }

  lemma ContactFastened(w: World, c: Node, g: Node, a: Node?)
    requires Loose(w, c) && g in w.kids && g.kind.Group? && (a != null ==> a in w.kids[g])
    ensures WellFormed(Inserted(w, c, g, a))
  {
    InsertedLists(w, c, g, a);
    KindsInserted(w, c, g, a);
  }

  lemma ContactRemoved(w: World, f: Node -> bool, c: Node)
    requires WellFormed(w) && c in w.par && c.kind.Contact?
    ensures var v, g := Removed(w, c), w.par[c];
      && |v.kids[g]| == |w.kids[g]| - 1
      && Tally(v.kids, f, g) == Tally(w.kids, f, g) - Bit(Tally(w.kids, f, c) > 0)
      && forall p: Node {:trigger p in v.kids} :: p in v.kids && p != g ==> SameTally(w, v, f, f, p)
  {
    var v, g := Removed(w, c), w.par[c];
    ContactLoosened(w, c);
    SpliceGroup(w, v, f, g);
    CountWithout(w.kids[g], c, LiveF(w.kids, f));
    assert v.kids[g] == Without(w.kids[g], c);
  }

  lemma ContactInserted(w: World, f: Node -> bool, c: Node, g: Node, a: Node?)
    requires Loose(w, c) && g in w.kids && g.kind.Group? && (a != null ==> a in w.kids[g])
    ensures var v := Inserted(w, c, g, a);
      && |v.kids[g]| == |w.kids[g]| + 1
      && Tally(v.kids, f, g) == Tally(w.kids, f, g) + Bit(Tally(w.kids, f, c) > 0)
      && forall p: Node {:trigger p in v.kids} :: p in v.kids && p != g ==> SameTally(w, v, f, f, p)
  {
    var v := Inserted(w, c, g, a);
    ContactFastened(w, c, g, a);
    SpliceGroup(w, v, f, g);
    CountAddAfter(w.kids[g], a, c, LiveF(w.kids, f));
    assert v.kids[g] == AddAfter(w.kids[g], a, c);
  }

  /** The tree without a loose contact that has no buddies. */
  ghost function Dropped(w: World, c: Node): World {
    w.(kids := w.kids - {c})
  }

  lemma ContactDropped(w: World, f: Node -> bool, c: Node)
    requires Loose(w, c) && w.kids[c] == []
    ensures var v := Dropped(w, c);
      && WellFormed(v)
      && forall p: Node {:trigger p in v.kids} :: p in v.kids ==> SameTally(w, v, f, f, p)
  {
    var v := Dropped(w, c);
    assert forall n: Node :: n in v.par ==> v.par[n] != c;
    forall p: Node | p in v.kids ensures SameTally(w, v, f, f, p) {
      CountAgree(v.kids[p], LiveF(w.kids, f), LiveF(v.kids, f)) by {
        forall i | 0 <= i < |v.kids[p]| ensures LiveF(w.kids, f)(v.kids[p][i]) == LiveF(v.kids, f)(v.kids[p][i]) {
        }
      }
    }
  }

  ghost predicate AgreeBut(w: World, f: Node -> bool, g: Node -> bool, x: Node) {
    forall n: Node {:trigger n in w.par} :: n in w.par && Leaf(n) && n != x ==> f(n) == g(n)
  }

  /** f and g differ on the buddy b only. */
  lemma BuddyFlipped(w: World, f: Node -> bool, g: Node -> bool, b: Node)
    requires WellFormed(w) && b in w.par && b.kind.Buddy?
    requires AgreeBut(w, f, g, b)
    ensures var c := w.par[b]; var h := w.par[c];
      && Tally(w.kids, g, c) == Tally(w.kids, f, c) - Bit(f(b)) + Bit(g(b))
      && Tally(w.kids, g, h) == Tally(w.kids, f, h) - Bit(Tally(w.kids, f, c) > 0) + Bit(Tally(w.kids, g, c) > 0)
      && forall p: Node {:trigger p in w.kids} :: p in w.kids && p != c && p != h ==> SameTally(w, w, f, g, p)
  {
    var c := w.par[b];
    var h := w.par[c];
    forall p: Node | p in w.kids && p.kind.Contact?
      ensures Count(w.kids[p], g) == Count(w.kids[p], f) - (if p == c then Bit(f(b)) - Bit(g(b)) else 0)
    {
      forall i | 0 <= i < |w.kids[p]|
        ensures w.kids[p][i] in w.par && w.par[w.kids[p][i]] == p
      {
        assert w.kids[p][i] in w.kids[p];
      }
      if p == c { CountFlip(w.kids[c], b, f, g); } else { CountAgree(w.kids[p], f, g); }
    }
    forall p: Node | p in w.kids && p.kind.Group?
      ensures Tally(w.kids, g, p) ==
        Tally(w.kids, f, p) - (if p == h then Bit(Tally(w.kids, f, c) > 0) - Bit(Tally(w.kids, g, c) > 0) else 0)
    {
      GroupTally(w, w, f, g, c, p);
    }
  }

  /** f and g differ on the chat x only. */
  lemma ChatFlipped(w: World, f: Node -> bool, g: Node -> bool, x: Node)
    requires WellFormed(w) && x in w.par && x.kind.Chat?
    requires AgreeBut(w, f, g, x)
    ensures var h := w.par[x];
      && Tally(w.kids, g, h) == Tally(w.kids, f, h) - Bit(f(x)) + Bit(g(x))
      && forall p: Node {:trigger p in w.kids} :: p in w.kids && p != h ==> SameTally(w, w, f, g, p)
  {
    var h := w.par[x];
    forall p: Node | p in w.kids && p.kind.Contact? ensures Count(w.kids[p], g) == Count(w.kids[p], f) {
      forall i | 0 <= i < |w.kids[p]|
        ensures w.kids[p][i] in w.par && w.par[w.kids[p][i]] == p
      {
        assert w.kids[p][i] in w.kids[p];
      }
      CountAgree(w.kids[p], f, g);
    }
    forall p: Node | p in w.kids && p.kind.Group?
      ensures Tally(w.kids, g, p) == Tally(w.kids, f, p) - (if p == h then Bit(f(x)) - Bit(g(x)) else 0)
    {
      GroupTally(w, w, f, g, x, p);
    }
  }
}
