/** Short runs of the buddy list that end with a cached priority buddy, an online count or a timer that is wrong. */
module BlistRuns {
  import opened BlistModel
  import opened BlistMoves
  import opened BlistContacts
  import opened BlistGroups
  import opened BlistDefaults
  import opened BlistWhere
  import opened BlistMerge
  import opened BlistPresence
  import opened BlistAccounts
  import opened BuddyLists

  /** Where a buddy is that has been put alone into group g. */
  lemma AddedWhere(m: World, w: World, norm: string -> string, b: Node, g: Node, c: Node, r: Node?, q: Node?)
    requires WellFormed(m) && b in m.nodes && g in m.kids && g.kind.Group?
    requires BuddyAdded(m, w, norm, b, null, g, null, c, r, q)
    ensures c !in m.nodes && c.kind.Contact? && b in w.par && w.par[b] == c && c in w.par && w.par[c] == g
    ensures w.connected == m.connected && b in m.info && b in w.info && w.info[b] == m.info[b]
  {
    var v := Before(m, norm, null, g, null, c);
    WithContactRest(m, norm, c, g);
    PlacedRest(v, norm, b, c, null, r, q);
  }

  lemma AddedFirst(m: World, w: World, norm: string -> string, b: Node, g: Node, c: Node, r: Node?, q: Node?)
    requires WellFormed(m) && b in m.nodes && g in m.kids && g.kind.Group?
    requires BuddyAdded(m, w, norm, b, null, g, null, c, r, q)
    requires b !in m.par
    ensures c in w.kids && w.kids[c] == [b] && w.index == m.index[Key(norm(b.name), b.account, g) := b]
  {
    hide Placed, PriorityAt, Placeable, Shape, FieldsOK, WithContact;
    AddedWhere(m, w, norm, b, g, c, r, q);
    WithContactRest(m, norm, c, g);
    WithContactEmpty(m, norm, c, g);
    PlacedFirst(WithContact(m, norm, c, g), norm, b, c, r, q);
  }

  lemma WithContactEmpty(w: World, norm: string -> string, c: Node, g: Node)
    requires WellFormed(w) && c.kind.Contact? && c !in w.nodes && g in w.kids && g.kind.Group?
    ensures var m := WithContact(w, norm, c, g); c in m.kids && m.kids[c] == [] && m.par == w.par[c := g]
  {
    NewContactPlaceable(w, c, g);
    WithContactPar(w, norm, c, g);
  }

  lemma PlacedFirst(w: World, norm: string -> string, b: Node, c: Node, r: Node?, q: Node?)
    requires WellFormed(w) && Placeable(w, b, c, null) && b !in w.par
    ensures var u := Placed(w, norm, b, c, null, r, q);
      c in u.kids && u.kids[c] == [b] + w.kids[c] && u.index == w.index[Key(norm(b.name), b.account, w.par[c]) := b]
  {
    PlacedRest(w, norm, b, c, null, r, q);
  }

  /** The list holds buddy b of the connected account 0, alone in a contact, Offline. */
  ghost predicate OneOnly(w: World, g: Node, c: Node, b: Node) {
    && w.connected == {0} && b in w.nodes && b.kind.Buddy? && b.account == 0
    && b in w.par && w.par[b] == c && c.kind.Contact? && c in w.par && w.par[c] == g
    && g.kind.Group? && g in w.kids && b in w.info && w.info[b] == Info(Offline, 0, 0, false)
    && c in w.kids && w.kids[c] == [b] && forall k: Key :: k in w.index ==> k.account == 0
  }

  ghost predicate AllRight(w: World) {
    PrioritiesOK(w) && OnlineOK(w) && TimersOK(w)
  }

  /** An account has signed on, group g is there, and buddy b of the account is new. */
  ghost predicate Prepared(w: World, g: Node, b: Node) {
    && w.connected == {0} && w.index == map[] && g.kind.Group? && g in w.kids
    && b.kind.Buddy? && b.account == 0 && b in w.nodes && b !in w.par && b !in w.kids
    && b in w.info && w.info[b] == Info(Offline, 0, 0, false)
  }

  lemma DefaultPrepared(v: World, m: World, g: Node, b: Node)
    requires WellFormed(v) && v.connected == {0} && v.index == map[] && DefaultMade(v, m, g, "")
    requires b.kind.Buddy? && b.account == 0 && Unlisted(v, b) && b in v.info && v.info[b] == Info(Offline, 0, 0, false)
    ensures Prepared(m, g, b)
  {
    DefaultIsThere(v, m, g, "");
    assert SameNode(v, m, b);
  }

  lemma NewBuddy(u: World, v: World, b: Node)
    requires u.connected == {0} && u.index == map[] && v == Admitted(u, b, "")
    ensures v.connected == {0} && v.index == map[] && b in v.info && v.info[b] == Info(Offline, 0, 0, false)
  {
  }

  lemma Kept(u: World, v: World)
    requires AllRight(u) && Keeps(u, v)
    ensures AllRight(v)
  {
  }

  method Prepare(norm: string -> string) returns (l: BuddyList, g: Node, b: Node)
    ensures fresh(l) && fresh(l.w.nodes) && l.norm == norm
    ensures l.Valid() && AllRight(l.w) && Prepared(l.w, g, b) && b.parent == null
  {
    hide BuddyList.Rep, Inv, AllRight, Keeps, DefaultMade, Unlisted;
    l := new BuddyList(norm);
    AllRightBy(l.w);
    ghost var t := l.w;
    l.AddAccount(0);
    ghost var u := l.w;
    Kept(t, u);
    b := l.MakeNode(Buddy, "", 0);
    ghost var v := l.w;
    Kept(u, v);
    NewBuddy(u, v, b);
    Listed(l);
    g := l.DefaultGroup("", b);
    Kept(v, l.w);
    DefaultPrepared(v, l.w, g, b);
  }

  lemma AllRightBy(w: World)
    requires PrioritiesOK(w) && OnlineOK(w) && TimersOK(w)
    ensures AllRight(w)
  {
  }

  lemma Listed(l: BuddyList)
    requires l.Valid()
    ensures WellFormed(l.w) && null in l.w.kids && Inv(l.w, l.norm)
  {
  }

  lemma PreparedFits(l: BuddyList, g: Node, b: Node)
    requires l.Valid() && Prepared(l.w, g, b)
    ensures BuddyFits(l.w, l.norm, b, null, g, null) && !Stays(l.w, b, null, null)
    ensures Settled(l.w, b) && TimerAt(l.w.info, b)
  {
  }

  lemma AddedOne(u: World, m: World, w: World, norm: string -> string, b: Node, g: Node, h: Node?, c: Node, r: Node?,
        q: Node?)
    requires Prepared(u, g, b) && AddedBy(u, m, w, norm, b, null, g, null, h, c, r, q)
    requires WellFormed(w)
    ensures OneOnly(w, g, c, b)
  {
    hide BuddyAdded, KindsOK, OwnersOK, SizesOK, NamesOK, IndexOK, NoClash, TargetGroup;
    AddedWhere(m, w, norm, b, g, c, r, q);
    AddedFirst(m, w, norm, b, g, c, r, q);
  }

  /** The list with one buddy, and all that is cached is right. */
  method OneBuddy(norm: string -> string) returns (l: BuddyList, g: Node, ghost c: Node, b: Node)
    ensures fresh(l) && fresh(l.w.nodes) && l.norm == norm
    ensures l.Valid() && AllRight(l.w) && OneOnly(l.w, g, c, b)
  {
    hide BuddyList.Rep, Inv, Prepared, OneOnly, AddedBy, BuddyFits, BuddyStands, GroupFor, Emptied;
    l, g, b := Prepare(norm);
    ghost var u := l.w;
    PreparedFits(l, g, b);
    ghost var m, h, r, i;
    m, h, c, r, i := l.AddBuddy(b, null, g, null);
    Listed(l);
    AddedOne(u, m, l.w, norm, b, g, h, c, r, c.priority);
  }

  // ------------------------------------------------------------- counts and timers that are wrong

  lemma SameWhere(u: World, w: World, g: Node, c: Node, b: Node, i: Info)
    requires OneOnly(u, g, c, b) && WellFormed(u) && WellFormed(w) && w.kids == u.kids && w.info == u.info[b := i]
    requires w.connected == u.connected
    ensures b in w.par && w.par[b] == c && c in w.par && w.par[c] == g && g in w.kids && b in w.nodes && b !in w.kids
  {
    assert b in u.kids[c] && c in u.kids[g];
    assert b in w.kids[c] && c in w.kids[g];
  }

  /** b has come and gone again, and its timer has not fired yet. */
  ghost predicate Going(w: World, g: Node, c: Node, b: Node) {
    && w.connected == {0} && b in w.nodes && b.kind.Buddy? && b.account == 0 && b !in w.kids
    && b in w.par && w.par[b] == c && c in w.par && w.par[c] == g && g.kind.Group? && g in w.kids && c.kind.Contact?
    && b in w.info && w.info[b] == Info(SigningOff, 0, 0, true)
  }

  lemma NowGoing(u: World, w: World, g: Node, c: Node, b: Node)
    requires OneOnly(u, g, c, b) && WellFormed(u) && WellFormed(w) && w.kids == u.kids && w.connected == u.connected
    requires w.info == u.info[b := Info(SigningOff, 0, 0, true)]
    ensures Going(w, g, c, b)
  {
    SameWhere(u, w, g, c, b, Info(SigningOff, 0, 0, true));
  }

  lemma Inside(l: BuddyList)
    requires l.Valid()
    ensures WellFormed(l.w) && l.connected == l.w.connected
  {
  }

  /** A buddy has come and gone, all that is cached is still right, and its timer is pending. */
  method ComeAndGone(norm: string -> string) returns (l: BuddyList, g: Node, ghost c: Node, b: Node)
    ensures fresh(l) && fresh(l.w.nodes) && l.norm == norm
    ensures l.Valid() && AllRight(l.w) && Going(l.w, g, c, b)
  {
    hide BuddyList.Rep, BuddyList.Valid, Inv, WellFormed, PrioritiesOK, OnlineOK, TimersOK;
    l, g, c, b := OneBuddy(norm);
    Inside(l);
    ghost var u := l.w;
    l.UpdatePresence(b, true);
    Inside(l);
    SameWhere(u, l.w, g, c, b, Info(SigningOn, 0, 0, true));
    ghost var v := l.w;
    l.UpdatePresence(b, false);
    Inside(l);
    assert l.w.info == u.info[b := Info(SigningOff, 0, 0, true)];
    NowGoing(u, l.w, g, c, b);
  }

  lemma GoingFits(l: BuddyList, g: Node, c: Node, b: Node)
    requires l.Valid() && Going(l.w, g, c, b)
    ensures BuddyFits(l.w, l.norm, b, null, g, null) && b in l.w.info && !Settled(l.w, b)
  {
    OwnKey(l.w, l.norm, b);
  }

  lemma AddedElsewhere(u: World, m: World, w: World, norm: string -> string, b: Node, g: Node, h: Node?, c: Node,
        d: Node, r: Node?, q: Node?)
    requires WellFormed(u) && Going(u, g, d, b) && BuddyGroup(u, m, norm, b, null, g, null, h)
    requires BuddyAdded(m, w, norm, b, null, h, null, c, r, q)
    ensures c != d && !Stays(m, b, null, null)
  {
  }

  /** Moving a buddy that is signing off makes the online counts wrong. */
  method CountLost(norm: string -> string) returns (l: BuddyList)
    ensures fresh(l) && l.Valid() && !OnlineOK(l.w)
  {
    hide BuddyList.Rep, BuddyList.Valid, Inv, Going, BuddyFits, BuddyGroup, BuddyAdded, OnlineOK, PrioritiesOK,
        TimersOK;
    var g, b;
    ghost var d, m, h, c, r, i;
    l, g, d, b := ComeAndGone(norm);
    ghost var u := l.w;
    Inside(l);
    GoingFits(l, g, d, b);
    GoingThere(u, g, d, b);
    m, h, c, r, i := l.AddBuddy(b, null, g, null);
    AddedElsewhere(u, m, l.w, norm, b, g, h, c, d, r, c.priority);
  }

  lemma GoingThere(w: World, g: Node, c: Node, b: Node)
    requires Going(w, g, c, b)
    ensures b in w.par && w.par[b] == c && b.kind.Buddy? && b.account == 0 && 0 in w.connected
    ensures SomeSigningOff(w, 0) && SomeTimer(w, 0)
  {
    assert w.info[b].present == SigningOff;
  }

  /** An account that signs off while a buddy is signing off makes the online counts and the timers wrong. */
  method TimerLost(norm: string -> string) returns (l: BuddyList)
    ensures fresh(l) && l.Valid() && !OnlineOK(l.w) && !TimersOK(l.w)
  {
    hide BuddyList.Rep, BuddyList.Valid, Inv, Going, OnlineOK, PrioritiesOK, TimersOK, SomeSigningOff, SomeTimer;
    var g, b;
    ghost var c;
    l, g, c, b := ComeAndGone(norm);
    Inside(l);
    GoingThere(l.w, g, c, b);
    l.RemoveAccount(0);
  }

  // ------------------------------------------------------------ a priority buddy that is wrong

  lemma AddedBeside(m: World, w: World, norm: string -> string, d: Node, b: Node, c: Node, r: Node?, q: Node?)
    requires WellFormed(m) && WellFormed(w) && d in m.nodes && d !in m.par && b in m.par && m.par[b] == c && d != b
    requires BuddyAdded(m, w, norm, d, null, null, b, c, r, q)
    ensures c in m.kids && c in w.kids && w.kids[c] == AddAfter(m.kids[c], b, d) && w.connected == m.connected
    ensures b in w.par && w.par[b] == c && b in w.kids[c] && d in w.kids[c]
  {
    PlacedRest(m, norm, d, c, b, r, q);
    AddAfterMembers(m.kids[c], b, d);
    assert b in m.kids[c];
  }

  lemma BesideFits(u: World, l: BuddyList, g: Node, c: Node, b: Node, d: Node)
    requires OneOnly(u, g, c, b) && l.Valid() && l.w == Admitted(u, d, "") && d !in u.nodes && WellFormed(u)
    requires d.kind.Buddy? && d.account == 1
    ensures BuddyFits(l.w, l.norm, d, null, null, b) && d !in l.w.par && d != b && !Stays(l.w, d, null, b)
    ensures b in l.w.par && l.w.par[b] == c && c in l.w.kids && l.w.kids[c] == [b] && l.w.connected == {0}
    ensures b.account == 0 && b.kind.Buddy?
  {
  }

  lemma TwoOfThem(m: World, w: World, norm: string -> string, d: Node, b: Node, c: Node, r: Node?, q: Node?)
    requires WellFormed(m) && WellFormed(w) && d in m.nodes && d !in m.par && b in m.par && m.par[b] == c && d != b
    requires b.account == 0 && d.account == 1 && m.connected == {0} && c in m.kids && m.kids[c] == [b] && b.kind.Buddy?
    requires BuddyAdded(m, w, norm, d, null, null, b, c, r, q) && PrioritiesOK(w)
    ensures b in w.par && w.par[b] == c && c in w.kids && w.kids[c] == [b, d] && c in w.prio && w.prio[c] == b
  {
    AddedBeside(m, w, norm, d, b, c, r, q);
    assert [b][1..] == [];
    assert w.kids[c] == [b, d];
    assert KindOK(w.kids, w.par, b);
    assert PriorityAt(w, c);
    OnlyConnected(w, c, b, d);
  }

  lemma OnlyConnected(w: World, c: Node, b: Node, d: Node)
    requires c in w.kids && w.kids[c] == [b, d] && PriorityAt(w, c)
    requires b.account in w.connected && d.account !in w.connected
    ensures w.prio[c] == b
  {
    var s := w.kids[c];
    assert s[0] == b && s[1] == d;
  }

  lemma StillThere(w: World, c: Node, b: Node, d: Node)
    requires WellFormed(w) && b in w.par && w.par[b] == c && b.kind.Buddy? && c in w.kids && w.kids[c] == [b, d]
    ensures c in Detached(w, b).kids
  {
    DetachedKids(w, b);
    assert Without([b, d], b) == [d];
  }

  /** Removing the priority buddy leaves it the priority buddy of its contact. */
  method PriorityLost(norm: string -> string) returns (l: BuddyList)
    ensures fresh(l) && l.Valid() && !PrioritiesOK(l.w)
  {
    hide BuddyList.Rep, BuddyList.Valid, Inv, WellFormed, OneOnly, BuddyFits, BuddyGroup, BuddyAdded;
    hide OnlineOK, PrioritiesOK, TimersOK, PriorityAt;
    var g, b;
    ghost var c, m, h, e, r, i;
    l, g, c, b := OneBuddy(norm);
    Inside(l);
    ghost var u := l.w;
    var d := l.MakeNode(Buddy, "", 1);
    Inside(l);
    BesideFits(u, l, g, c, b, d);
    ghost var v := l.w;
    m, h, e, r, i := l.AddBuddy(d, null, null, b);
    Inside(l);
    BesideIs(v, m, l.w, norm, d, b, h, e, c, r, e.priority);
    TwoOfThem(v, l.w, norm, d, b, c, r, e.priority);
    StillThere(l.w, c, b, d);
    l.RemoveBuddy(b);
  }

  lemma BesideIs(v: World, m: World, w: World, norm: string -> string, d: Node, b: Node, h: Node?, e: Node, c: Node,
        r: Node?, q: Node?)
    requires WellFormed(v) && BuddyGroup(v, m, norm, d, null, null, b, h)
    requires BuddyAdded(m, w, norm, d, null, h, b, e, r, q)
    requires b in v.par && v.par[b] == c && !Stays(v, d, null, b)
    ensures m == v && h == null && e == c
  {
  }
}
