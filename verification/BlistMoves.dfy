/** The bookkeeping of each move, step by step, and what each step keeps. */
module BlistMoves {
  import opened BlistModel
  import opened BlistTally

  // ------------------------------------------------------------- cached counters

  /** Contact c of group g has lost a member that counts if x. */
  ghost function Lowered(m: map<Node, int>, c: Node, g: Node, x: bool): map<Node, int>
    requires c in m && g in m
  {
    var k := m[c] - Bit(x);
    m[c := k][g := m[g] - Bit(x && k == 0)]
  }

  /** Contact c of group g has gained a member that counts if x. */
  ghost function Raised(m: map<Node, int>, c: Node, g: Node, x: bool): map<Node, int>
    requires c in m && g in m
  {
    var k := m[c] + Bit(x);
    m[c := k][g := m[g] + Bit(x && k == 1)]
  }

  lemma LeftConsistent(w: World, f: Node -> bool, m: map<Node, int>, b: Node)
    requires WellFormed(w) && b in w.par && b.kind.Buddy? && Consistent(w.kids, f, m)
    ensures Consistent(Removed(w, b).kids, f, Lowered(m, w.par[b], w.par[w.par[b]], f(b)))
  {
    BuddyRemoved(w, f, b);
  }

  lemma JoinedConsistent(w: World, f: Node -> bool, m: map<Node, int>, b: Node, c: Node, a: Node?, x: bool)
    requires WellFormed(w) && b !in w.par && b !in w.kids && b.kind.Buddy? && Consistent(w.kids, f, m)
    requires c in w.kids && c.kind.Contact? && (a != null ==> a in w.kids[c])
    ensures Consistent(Inserted(w, b, c, a).kids, f, Raised(m, c, w.par[c], x)) <==> x == f(b)
  {
    BuddyInserted(w, f, b, c, a);
    assert c in Inserted(w, b, c, a).kids;
  }

  lemma ChatLeftConsistent(w: World, f: Node -> bool, m: map<Node, int>, x: Node)
    requires WellFormed(w) && x in w.par && x.kind.Chat? && Consistent(w.kids, f, m)
    ensures Consistent(Removed(w, x).kids, f, m[w.par[x] := m[w.par[x]] - Bit(f(x))])
  {
    ChatRemoved(w, f, x);
  }

  lemma ChatJoinedConsistent(w: World, f: Node -> bool, m: map<Node, int>, x: Node, g: Node, a: Node?)
    requires WellFormed(w) && x !in w.par && x !in w.kids && x.kind.Chat? && x in w.nodes && Consistent(w.kids, f, m)
    requires g in w.kids && g.kind.Group? && (a != null ==> a in w.kids[g])
    ensures Consistent(Inserted(w, x, g, a).kids, f, m[g := m[g] + Bit(f(x))])
  {
    ChatInserted(w, f, x, g, a);
  }

  lemma ContactLeftConsistent(w: World, f: Node -> bool, m: map<Node, int>, c: Node)
    requires WellFormed(w) && c in w.par && c.kind.Contact? && Consistent(w.kids, f, m)
    ensures Consistent(Removed(w, c).kids, f, m[w.par[c] := m[w.par[c]] - Bit(m[c] > 0)])
  {
    ContactRemoved(w, f, c);
  }

  lemma ContactJoinedConsistent(w: World, f: Node -> bool, m: map<Node, int>, c: Node, g: Node, a: Node?)
    requires Loose(w, c) && Consistent(w.kids, f, m)
    requires g in w.kids && g.kind.Group? && (a != null ==> a in w.kids[g])
    ensures Consistent(Inserted(w, c, g, a).kids, f, m[g := m[g] + Bit(m[c] > 0)])
  {
    ContactInserted(w, f, c, g, a);
  }

  // ------------------------------------------------------------- the hash index

  lemma InverseRemoved(keys: map<Node, Key>, index: map<Key, Node>, b: Node)
    requires Inverse(keys, index) && b in keys
    ensures Inverse(keys - {b}, index - {keys[b]})
  {
    var l, m := keys - {b}, index - {keys[b]};
    forall x: Node | x in l ensures l[x] in m && m[l[x]] == x { assert x in keys; }
    forall k: Key | k in m ensures m[k] in l && l[m[k]] == k { assert k in index; }
  }

  lemma InverseAdded(keys: map<Node, Key>, index: map<Key, Node>, b: Node, k: Key)
    requires Inverse(keys, index - {k}) && b !in keys
    ensures Inverse(keys[b := k], index[k := b])
  {
    var l, m := keys[b := k], index[k := b];
    forall x: Node | x in l ensures l[x] in m && m[l[x]] == x { assert x != b ==> keys[x] in index - {k}; }
    forall h: Key | h in m ensures m[h] in l && l[m[h]] == h { assert h != k ==> h in index - {k}; }
  }

  ghost predicate Childless(par: map<Node, Node?>, b: Node) {
    forall n: Node {:trigger n in par} :: n in par ==> par[n] != b
  }

  lemma KeysRemoved(par: map<Node, Node?>, norm: string -> string, b: Node)
    requires b in par && Childless(par, b)
    ensures Keys(par - {b}, norm) == Keys(par, norm) - {b}
  {
  }

  lemma KeysAdded(par: map<Node, Node?>, norm: string -> string, b: Node, c: Node)
    requires b !in par && b.kind.Buddy? && c in par && b != c && Childless(par, b)
    ensures b !in Keys(par, norm)
    ensures Keys(par[b := c], norm) == Keys(par, norm)[b := Key(norm(b.name), b.account, par[c])]
  {
  }

  // ------------------------------------------------------------- a buddy leaves or joins

  /** GAIM_BUDDY_IS_ONLINE */
  ghost predicate IsOnline(w: World, b: Node)
    requires b in w.info
  {
    b.account in w.connected && Present(w.info[b])
  }

  ghost predicate HasCounts(w: World, n: Node) {
    n in w.total && n in w.current && n in w.online
  }

  /** A member b leaves the counts of contact c of group g. */
  ghost function LoweredCounts(w: World, b: Node, c: Node, g: Node): World
    requires b in w.info && HasCounts(w, c) && HasCounts(w, g)
  {
    w.(total := w.total[c := w.total[c] - 1],
       current := Lowered(w.current, c, g, b.account in w.connected),
       online := Lowered(w.online, c, g, IsOnline(w, b)))
  }

  /** b has left its contact, which stays even if it is now empty. */
  ghost function Left(w: World, b: Node): World
    requires WellFormed(w) && b in w.par && b.kind.Buddy?
  {
    Removed(LoweredCounts(w, b, w.par[b], w.par[w.par[b]]), b)
  }

  /** A member b enters the counts of contact c of group g. */
  ghost function RaisedCounts(w: World, b: Node, c: Node, g: Node): World
    requires b in w.info && HasCounts(w, c) && HasCounts(w, g)
  {
    w.(total := w.total[c := w.total[c] + 1],
       current := Raised(w.current, c, g, b.account in w.connected),
       online := Raised(w.online, c, g, IsOnline(w, b)))
  }

  /** b has joined contact c, right after a or in front. */
  ghost function Joined(w: World, b: Node, c: Node, a: Node?): World
    requires CanJoin(w, b, c, a)
  {
    RaisedCounts(Inserted(w, b, c, a), b, c, w.par[c])
  }

  ghost predicate CanJoin(w: World, b: Node, c: Node, a: Node?) {
    && WellFormed(w) && b.kind.Buddy? && b !in w.par && b !in w.kids && b in w.nodes
    && c in w.kids && c.kind.Contact? && (a != null ==> a in w.kids[c])
  }

  /** Every contact but c has the priority buddy it should have. */
  ghost predicate PrioritiesBut(w: World, c: Node?) {
    forall d: Node {:trigger d in w.kids} :: d in w.kids && d.kind.Contact? && d != c ==> PriorityAt(w, d)
  }

  lemma LeftWellFormed(w: World, b: Node)
    requires WellFormed(w) && b in w.par && b.kind.Buddy?
    ensures WellFormed(Left(w, b))
  {
    LeafRemoved(w, b);
  }

  lemma JoinedWellFormed(w: World, b: Node, c: Node, a: Node?)
    requires CanJoin(w, b, c, a)
    ensures WellFormed(Joined(w, b, c, a))
  {
    LeafInserted(w, b, c, a);
  }

  lemma JoinReady(w: World, b: Node, c: Node, a: Node?)
    requires CanJoin(w, b, c, a)
    ensures ListsOK(w.kids, w.par) && b !in w.par && b in w.nodes && b != c && c in w.kids && c !in w.kids[c]
    ensures (a != null ==> a in w.kids[c]) && WellFormed(Joined(w, b, c, a)) && b in w.info
    ensures c in w.par && c in w.nodes && w.par[c] != null && w.par[c] in w.nodes && w.par[c] != c
    ensures HasCounts(w, c) && HasCounts(w, w.par[c])
    ensures var u := Inserted(w, b, c, a);
      ListsOK(u.kids, u.par) && FieldsOK(u) && b in u.par && u.par[b] == c && c in u.par && u.par[c] == w.par[c]
  {
    JoinedWellFormed(w, b, c, a);
    InsertedLists(w, b, c, a);
    NotOwnChild(w.kids, w.par, c);
  }

  lemma LeftOK(w: World, b: Node)
    requires WellFormed(w) && SizesOK(w) && b in w.par && b.kind.Buddy?
    ensures WellFormed(Left(w, b)) && SizesOK(Left(w, b))
  {
    LeafRemoved(w, b);
    BuddyRemoved(w, ConnectedF(w.connected), b);
    LeftConsistent(w, ConnectedF(w.connected), w.current, b);
  }

  lemma LeftOnline(w: World, b: Node)
    requires WellFormed(w) && OnlineOK(w) && b in w.par && b.kind.Buddy? && w.info[b].present != SigningOff
    ensures OnlineOK(Left(w, b))
  {
    LeftConsistent(w, OnlineF(w.info, w.connected), w.online, b);
  }

  lemma LeftIndex(w: World, norm: string -> string, b: Node)
    requires WellFormed(w) && IndexOK(w, norm, w.index) && b in w.par && b.kind.Buddy?
    ensures var keys := Keys(w.par, norm); b in keys && IndexOK(Left(w, b), norm, w.index - {keys[b]})
  {
    InverseRemoved(Keys(w.par, norm), w.index, b);
    KeysRemoved(w.par, norm, b);
  }

  lemma LeftPriorities(w: World, b: Node)
    requires WellFormed(w) && b in w.par && b.kind.Buddy? && PrioritiesOK(w)
    ensures PrioritiesBut(Left(w, b), w.par[b])
  {
  }

  lemma JoinedOK(w: World, b: Node, c: Node, a: Node?)
    requires CanJoin(w, b, c, a) && SizesOK(w)
    ensures WellFormed(Joined(w, b, c, a)) && SizesOK(Joined(w, b, c, a))
  {
    LeafInserted(w, b, c, a);
    BuddyInserted(w, ConnectedF(w.connected), b, c, a);
    JoinedConsistent(w, ConnectedF(w.connected), w.current, b, c, a, b.account in w.connected);
  }

  /** A buddy the online counts see as they should: Offline, or on a connected
      account and not signing off. */
  ghost predicate Settled(w: World, b: Node)
    requires b in w.info
  {
    w.info[b].present == Offline || (b.account in w.connected && w.info[b].present != SigningOff)
  }

  lemma JoinedOnline(w: World, b: Node, c: Node, a: Node?)
    requires CanJoin(w, b, c, a) && OnlineOK(w)
    ensures OnlineOK(Joined(w, b, c, a)) <==> Settled(w, b)
  {
    JoinedConsistent(w, OnlineF(w.info, w.connected), w.online, b, c, a, IsOnline(w, b));
    assert b in Joined(w, b, c, a).par;
  }

  lemma JoinedIndex(w: World, norm: string -> string, b: Node, c: Node, a: Node?)
    requires CanJoin(w, b, c, a)
    requires var k := Key(norm(b.name), b.account, w.par[c]); IndexOK(w, norm, w.index - {k})
    ensures var k := Key(norm(b.name), b.account, w.par[c]);
      IndexOK(Joined(w, b, c, a), norm, w.index[k := b])
  {
    var k := Key(norm(b.name), b.account, w.par[c]);
    KeysAdded(w.par, norm, b, c);
    InverseAdded(Keys(w.par, norm), w.index, b, k);
  }

  lemma JoinedPriorities(w: World, b: Node, c: Node, a: Node?)
    requires CanJoin(w, b, c, a) && PrioritiesBut(w, c)
    ensures PrioritiesBut(Joined(w, b, c, a), c)
  {
  }

  // ------------------------------------------------------------- an emptied contact goes

  ghost function Pruned(w: World, c: Node): World
    requires c in w.par && w.par[c] in w.kids
  {
    Dropped(Removed(w, c), c)
  }

  lemma PrunedOK(w: World, c: Node)
    requires WellFormed(w) && SizesOK(w) && c in w.par && c.kind.Contact? && w.kids[c] == []
    ensures WellFormed(Pruned(w, c)) && SizesOK(Pruned(w, c))
    ensures OnlineOK(w) ==> OnlineOK(Pruned(w, c))
  {
    PrunedConsistent(w, ConnectedF(w.connected), w.current, c);
    if OnlineOK(w) { PrunedConsistent(w, OnlineF(w.info, w.connected), w.online, c); }
  }

  lemma PrunedConsistent(w: World, f: Node -> bool, m: map<Node, int>, c: Node)
    requires WellFormed(w) && c in w.par && c.kind.Contact? && w.kids[c] == [] && Consistent(w.kids, f, m)
    ensures WellFormed(Pruned(w, c)) && Consistent(Pruned(w, c).kids, f, m)
  {
    var u := Removed(w, c);
    ContactLoosened(w, c);
    ContactLeftConsistent(w, f, m, c);
    ContactDropped(u, f, c);
  }

  /** b is out of the tree, and so is its contact if that is left empty. */
  ghost function Detached(w: World, b: Node): World
    requires WellFormed(w) && b in w.par && b.kind.Buddy?
  {
    TidiedUp(Left(w, b), w.par[b])
  }

  ghost function TidiedUp(w: World, c: Node): World
    requires c in w.par && w.par[c] in w.kids && c in w.kids
  {
    if w.kids[c] == [] then Pruned(w, c) else w
  }

  lemma TidiedUpIndex(w: World, index: map<Key, Node>, c: Node)
    requires c in w.par && w.par[c] in w.kids && c in w.kids
    ensures TidiedUp(w.(index := index), c) == TidiedUp(w, c).(index := index)
    ensures TidiedUp(w, c).prio == w.prio
  {
  }

  lemma DetachedWellFormed(w: World, b: Node)
    requires WellFormed(w) && b in w.par && b.kind.Buddy?
    ensures WellFormed(Detached(w, b))
  {
    LeafRemoved(w, b);
    var l, c := Left(w, b), w.par[b];
    if l.kids[c] == [] {
      ContactLoosened(l, c);
      assert WellFormed(Dropped(Removed(l, c), c)) by { ContactDropped(Removed(l, c), ConnectedF(w.connected), c); }
    }
  }

  lemma DetachedOK(w: World, b: Node)
    requires WellFormed(w) && SizesOK(w) && b in w.par && b.kind.Buddy?
    ensures WellFormed(Detached(w, b)) && SizesOK(Detached(w, b))
    ensures OnlineOK(w) && w.info[b].present != SigningOff ==> OnlineOK(Detached(w, b))
  {
    LeftOK(w, b);
    if OnlineOK(w) && w.info[b].present != SigningOff { LeftOnline(w, b); }
    if Left(w, b).kids[w.par[b]] == [] { PrunedOK(Left(w, b), w.par[b]); }
  }

  lemma DetachedNames(w: World, b: Node)
    requires WellFormed(w) && NamesOK(w) && b in w.par && b.kind.Buddy? && WellFormed(Detached(w, b))
    ensures NamesOK(Detached(w, b))
  {
    var v, c := Left(w, b), w.par[b];
    assert v.kids[null] == w.kids[null] && w.par[c] != null;
  }

  lemma DetachedIndex(w: World, norm: string -> string, b: Node)
    requires WellFormed(w) && SizesOK(w) && IndexOK(w, norm, w.index) && b in w.par && b.kind.Buddy?
    ensures var keys := Keys(w.par, norm); b in keys && IndexOK(Detached(w, b), norm, w.index - {keys[b]})
  {
    LeftOK(w, b);
    LeftIndex(w, norm, b);
    var v, c := Left(w, b), w.par[b];
    if v.kids[c] == [] {
      assert forall n: Node :: n in v.par ==> v.par[n] != c;
      KeysRemoved(v.par, norm, c);
    }
  }

  /** The hash between the halves of a move into group g: b's entry is dropped only
      if the move leaves the group. */
  ghost function LeftIndexFor(w: World, norm: string -> string, b: Node, g: Node?): map<Key, Node>
    requires WellFormed(w) && b in w.par && b.kind.Buddy?
  {
    var h := w.par[w.par[b]];
    if h != g then w.index - {Key(norm(b.name), b.account, h)} else w.index
  }

  lemma IndexForGroup(w: World, norm: string -> string, b: Node, g: Node?)
    requires WellFormed(w) && SizesOK(w) && IndexOK(w, norm, w.index) && b in w.par && b.kind.Buddy?
    requires NoClash(w, norm, b, g)
    ensures IndexOK(Detached(w, b), norm, LeftIndexFor(w, norm, b, g) - {Key(norm(b.name), b.account, g)})
  {
    DetachedIndex(w, norm, b);
    var keys := Keys(w.par, norm);
    NewKeyFree(keys, w.index, b, Key(norm(b.name), b.account, g));
  }

  /** With b's old key gone, its new key was not in use. */
  lemma NewKeyFree(keys: map<Node, Key>, index: map<Key, Node>, b: Node, k: Key)
    requires Inverse(keys, index) && b in keys && (k in index ==> index[k] == b)
    ensures (if keys[b] != k then index - {keys[b]} else index) - {k} == index - {keys[b]}
  {
  }

  /** No other buddy has the key that b will have in group g. */
  ghost predicate NoClash(w: World, norm: string -> string, b: Node, g: Node?) {
    var k := Key(norm(b.name), b.account, g);
    k in w.index ==> w.index[k] == b
  }

  lemma DetachedPriorities(w: World, b: Node)
    requires WellFormed(w) && b in w.par && b.kind.Buddy? && PrioritiesOK(w)
    ensures PrioritiesBut(Detached(w, b), w.par[b])
  {
    LeftPriorities(w, b);
  }

  // --------------------------------------------------------------------- the whole move

  /** The buddy b can be put into contact c, after a or in front, and is not there already. */
  ghost predicate Placeable(w: World, b: Node, c: Node, a: Node?)
  {
    && b in w.nodes && b.kind.Buddy? && b !in w.kids
    && c in w.kids && c in w.par && c.kind.Contact? && a != b && (a != null ==> a in w.kids[c])
    && (a == null && b in w.par && w.par[b] == c ==> w.kids[c] != [] && w.kids[c][0] != b)
  }

  /** Between the halves of a move. */
  ghost function Halfway(w: World, norm: string -> string, b: Node, g: Node?, r: Node?): World
    requires WellFormed(w) && (b in w.par ==> b.kind.Buddy?)
  {
    if b in w.par then Detached(w, b).(index := LeftIndexFor(w, norm, b, g), prio := w.prio[w.par[b] := r]) else w
  }

  /** The target of a move is still there when the buddy has left. */
  lemma TargetStays(w: World, b: Node, c: Node, a: Node?)
    requires WellFormed(w) && b in w.par && Placeable(w, b, c, a)
    ensures var v := Detached(w, b); c in v.kids && (a != null ==> a in v.kids[c]) && c in v.par && v.par[c] == w.par[c]
  {
    var d := w.par[b];
    var l := Left(w, b);
    if c == d {
      assert l.kids[d] == Without(w.kids[d], b);
      WithoutMembers(w.kids[d], b);
      assert a == null ==> w.kids[d][0] in w.kids[d];
    } else {
      assert l.kids[c] == w.kids[c];
    }
  }

  lemma DetachedRest(w: World, b: Node)
    requires WellFormed(w) && b in w.par && b.kind.Buddy?
    ensures var v := Detached(w, b);
      && b !in v.par && v.nodes == w.nodes && v.connected == w.connected && v.info == w.info
      && v.names == w.names && v.prio == w.prio && v.kids.Keys <= w.kids.Keys
  {
    hide WellFormed, Left;
    LeftRest(w, b);
  }

  lemma LeftRest(w: World, b: Node)
    requires WellFormed(w) && b in w.par && b.kind.Buddy?
    ensures var v, c := Left(w, b), w.par[b];
      && v.par == w.par - {b} && v.nodes == w.nodes && v.connected == w.connected && v.info == w.info
      && v.names == w.names && v.prio == w.prio && v.kids.Keys == w.kids.Keys
      && c in v.par && v.par[c] in v.kids && c in v.kids
  {
  }

  lemma HalfwayCanJoin(w: World, norm: string -> string, b: Node, c: Node, a: Node?, r: Node?)
    requires WellFormed(w) && Placeable(w, b, c, a)
    ensures var v := Halfway(w, norm, b, w.par[c], r); CanJoin(v, b, c, a) && v.par[c] == w.par[c]
  {
    if b in w.par {
      DetachedWellFormed(w, b);
      TargetStays(w, b, c, a);
      DetachedRest(w, b);
      Relabelled(Detached(w, b), LeftIndexFor(w, norm, b, w.par[c]), w.par[b], r);
    }
  }

  lemma Relabelled(w: World, index: map<Key, Node>, c: Node, r: Node?)
    requires WellFormed(w)
    ensures WellFormed(w.(index := index, prio := w.prio[c := r]))
  {
  }

  lemma HalfwaySizes(w: World, norm: string -> string, b: Node, g: Node?, r: Node?)
    requires WellFormed(w) && SizesOK(w) && b.kind.Buddy?
    ensures SizesOK(Halfway(w, norm, b, g, r))
  {
    if b in w.par { DetachedOK(w, b); DetachedRest(w, b); }
  }

  lemma HalfwayIndex(w: World, norm: string -> string, b: Node, c: Node, r: Node?)
    requires WellFormed(w) && SizesOK(w) && IndexOK(w, norm, w.index) && c in w.par
    requires b.kind.Buddy? && NoClash(w, norm, b, w.par[c])
    ensures var v := Halfway(w, norm, b, w.par[c], r);
      IndexOK(v, norm, v.index - {Key(norm(b.name), b.account, w.par[c])})
  {
    var k := Key(norm(b.name), b.account, w.par[c]);
    if b in w.par {
      IndexForGroup(w, norm, b, w.par[c]);
    } else {
      assert b !in Keys(w.par, norm);
      assert k !in w.index;
      assert w.index - {k} == w.index;
    }
  }

  /** The move done: r and q are the priority buddies chosen for the contacts left and joined. */
  ghost function Placed(w: World, norm: string -> string, b: Node, c: Node, a: Node?, r: Node?, q: Node?): World
    requires WellFormed(w) && Placeable(w, b, c, a)
  {
    HalfwayCanJoin(w, norm, b, c, a, r);
    var v := Halfway(w, norm, b, w.par[c], r);
    Joined(v, b, c, a).(index := v.index[Key(norm(b.name), b.account, w.par[c]) := b], prio := v.prio[c := q])
  }

  lemma PlacedInv(w: World, norm: string -> string, b: Node, c: Node, a: Node?, r: Node?, q: Node?)
    requires Inv(w, norm) && Placeable(w, b, c, a) && NoClash(w, norm, b, w.par[c])
    ensures Inv(Placed(w, norm, b, c, a, r, q), norm)
  {
    var v := Halfway(w, norm, b, w.par[c], r);
    HalfwayCanJoin(w, norm, b, c, a, r);
    HalfwaySizes(w, norm, b, w.par[c], r);
    HalfwayIndex(w, norm, b, c, r);
    JoinedOK(v, b, c, a);
    JoinedIndex(v, norm, b, c, a);
    var u := Joined(v, b, c, a);
    Relabelled(u, v.index[Key(norm(b.name), b.account, w.par[c]) := b], c, q);
    assert u.prio == v.prio;
    PlacedNames(w, norm, b, c, a, r, q);
  }

  lemma PlacedNames(w: World, norm: string -> string, b: Node, c: Node, a: Node?, r: Node?, q: Node?)
    requires WellFormed(w) && NamesOK(w) && Placeable(w, b, c, a)
    requires WellFormed(Placed(w, norm, b, c, a, r, q))
    ensures NamesOK(Placed(w, norm, b, c, a, r, q))
  {
    HalfwayCanJoin(w, norm, b, c, a, r);
    if b in w.par {
      DetachedWellFormed(w, b);
      DetachedNames(w, b);
      DetachedRest(w, b);
    }
  }

  lemma HalfwayRest(w: World, norm: string -> string, b: Node, g: Node?, r: Node?)
    requires WellFormed(w) && b in w.par && b.kind.Buddy?
    ensures var v, d := Halfway(w, norm, b, g, r), Detached(w, b);
      && v.kids == d.kids && v.par == d.par && v.online == d.online
      && v.prio == w.prio[w.par[b] := r] && d.prio == w.prio
      && v.info == d.info == w.info && v.connected == d.connected == w.connected
  {
    DetachedRest(w, b);
  }

  lemma PrioritiesBy(v: World, u: World, c: Node, r: Node?)
    requires PrioritiesBut(v, c) && u.kids == v.kids && u.info == v.info && u.connected == v.connected
    requires u.prio == v.prio[c := r] && (c in u.kids ==> PriorityAt(u, c))
    ensures PrioritiesOK(u)
  {
    forall d: Node | d in u.kids && d.kind.Contact? ensures PriorityAt(u, d) {
      assert d != c ==> PriorityAt(v, d);
    }
  }

  /** Moving a buddy keeps every priority buddy right. */
  lemma PlacedPriorities(w: World, norm: string -> string, b: Node, c: Node, a: Node?, r: Node?, q: Node?)
    requires WellFormed(w) && Placeable(w, b, c, a) && PrioritiesOK(w)
    requires var v := Halfway(w, norm, b, w.par[c], r); b in w.par && w.par[b] in v.kids ==> PriorityAt(v, w.par[b])
    requires PriorityAt(Placed(w, norm, b, c, a, r, q), c)
    ensures PrioritiesOK(Placed(w, norm, b, c, a, r, q))
  {
    var v, u := Halfway(w, norm, b, w.par[c], r), Placed(w, norm, b, c, a, r, q);
    PlacedRest(w, norm, b, c, a, r, q);
    if b in w.par {
      DetachedPriorities(w, b);
      HalfwayRest(w, norm, b, w.par[c], r);
      PrioritiesBy(Detached(w, b), v, w.par[b], r);
    }
    JoinedPriorities(v, b, c, a);
    PrioritiesBy(Joined(v, b, c, a), u, c, q);
  }

  // ------------------------------------------------- the move and the online counts

  /** What the online counts of the moved world depend on. */
  lemma PlacedRest(w: World, norm: string -> string, b: Node, c: Node, a: Node?, r: Node?, q: Node?)
    requires WellFormed(w) && Placeable(w, b, c, a)
    ensures var v, u := Halfway(w, norm, b, w.par[c], r), Placed(w, norm, b, c, a, r, q);
      && CanJoin(v, b, c, a) && v.info == u.info == w.info && v.connected == u.connected == w.connected
      && u.kids == Inserted(v, b, c, a).kids && u.par == Inserted(v, b, c, a).par
      && u.online == Joined(v, b, c, a).online && u.prio == v.prio[c := q] && c in u.kids
  {
    HalfwayCanJoin(w, norm, b, c, a, r);
    if b in w.par { DetachedRest(w, b); }
  }

  lemma OnlineBy(w: World, v: World)
    requires w.info == v.info && w.connected == v.connected && w.kids == v.kids && w.par == v.par
    requires w.online == v.online
    ensures OnlineOK(w) <==> OnlineOK(v)
  {
  }

  lemma PlacedInPlace(w: World, norm: string -> string, b: Node, c: Node, a: Node?, r: Node?, q: Node?)
    requires WellFormed(w) && Placeable(w, b, c, a) && b in w.par && w.par[b] == c && !IsOnline(w, b)
    ensures a != null ==> a in Removed(w, b).kids[c]
    ensures var u, v := Placed(w, norm, b, c, a, r, q), Inserted(Removed(w, b), b, c, a);
      u.info == w.info && u.connected == w.connected && u.online == w.online && u.kids == v.kids && u.par == v.par
  {
    PlacedRest(w, norm, b, c, a, r, q);
    UncountedMove(w, norm, b, c, a, r, q);
    HalfwayRest(w, norm, b, w.par[c], r);
    StaysInContact(w, b, a);
  }

  lemma SigningOffStays(w: World, norm: string -> string, b: Node, c: Node, a: Node?, r: Node?, q: Node?)
    requires WellFormed(w) && Placeable(w, b, c, a) && OnlineOK(w)
    requires b in w.par && w.info[b].present == SigningOff && w.par[b] == c
    ensures OnlineOK(Placed(w, norm, b, c, a, r, q))
  {
    PlacedInPlace(w, norm, b, c, a, r, q);
    OnlineStays(w, Placed(w, norm, b, c, a, r, q), b, a);
  }

  lemma SigningOffMoves(w: World, norm: string -> string, b: Node, c: Node, a: Node?, r: Node?, q: Node?)
    requires WellFormed(w) && Placeable(w, b, c, a) && OnlineOK(w)
    requires b in w.par && w.info[b].present == SigningOff && w.par[b] != c
    ensures !OnlineOK(Placed(w, norm, b, c, a, r, q))
  {
    hide KindsOK, OwnersOK, NodesOK, Placed, Halfway;
    PlacedRest(w, norm, b, c, a, r, q);
    var u := Placed(w, norm, b, c, a, r, q);
    UncountedMove(w, norm, b, c, a, r, q);
    HalfwayRest(w, norm, b, w.par[c], r);
    OtherContact(w, b, c);
    Overcounted(w.kids, u.kids, OnlineF(w.info, w.connected), w.online, b, c, a);
  }

  /** Moving a buddy keeps the online counts right exactly if it is settled or stays in its contact. */
  lemma PlacedOnline(w: World, norm: string -> string, b: Node, c: Node, a: Node?, r: Node?, q: Node?)
    requires WellFormed(w) && SizesOK(w) && Placeable(w, b, c, a) && OnlineOK(w)
    ensures OnlineOK(Placed(w, norm, b, c, a, r, q)) <==> Settled(w, b) || (b in w.par && w.par[b] == c)
  {
    if b in w.par && w.info[b].present == SigningOff {
      if w.par[b] == c { SigningOffStays(w, norm, b, c, a, r, q); } else { SigningOffMoves(w, norm, b, c, a, r, q); }
    } else {
      PlacedRest(w, norm, b, c, a, r, q);
      var v := Halfway(w, norm, b, w.par[c], r);
      if b in w.par {
        DetachedOK(w, b);
        HalfwayRest(w, norm, b, w.par[c], r);
        OnlineBy(v, Detached(w, b));
      }
      JoinedOnline(v, b, c, a);
      OnlineBy(Placed(w, norm, b, c, a, r, q), Joined(v, b, c, a));
    }
  }

  /** By how much the cached online count of contact c falls short of a recount. */
  ghost function Short(w: World, c: Node): int {
    if c in w.kids && c in w.online then Tally(w.kids, OnlineF(w.info, w.connected), c) - w.online[c] else 0
  }

  /** A contact that gains a buddy from another one falls short by one more if the buddy is signing off. */
  lemma PlacedShort(w: World, norm: string -> string, b: Node, c: Node, a: Node?, r: Node?, q: Node?)
    requires WellFormed(w) && Placeable(w, b, c, a) && OfflineOK(w) && b in w.par && w.par[b] != c
    ensures var u := Placed(w, norm, b, c, a, r, q);
      OfflineOK(u) && Short(u, c) == Short(w, c) + Bit(w.info[b].present == SigningOff)
  {
    hide KindsOK, OwnersOK, NodesOK, Placed, Halfway, Short;
    PlacedOffline(w, norm, b, c, a, r, q);
    PlacedAt(w, norm, b, c, a, r, q);
    ShortBy(w, Placed(w, norm, b, c, a, r, q), b, c, a);
  }

  lemma ShortBy(w: World, u: World, b: Node, c: Node, a: Node?)
    requires c in w.kids && c in u.kids && c in w.online && c in u.online && c.kind.Contact?
    requires Distinct(w.kids[c]) && (a != null ==> a in w.kids[c]) && u.kids[c] == AddAfter(w.kids[c], a, b)
    requires b in w.info && b.kind.Buddy? && (b.account !in w.connected ==> w.info[b].present == Offline)
    requires u.online[c] == w.online[c] + Bit(IsOnline(w, b)) && u.info == w.info && u.connected == w.connected
    ensures Short(u, c) == Short(w, c) + Bit(w.info[b].present == SigningOff)
  {
    CountAddAfter(w.kids[c], a, b, OnlineF(w.info, w.connected));
  }

  lemma PlacedOffline(w: World, norm: string -> string, b: Node, c: Node, a: Node?, r: Node?, q: Node?)
    requires WellFormed(w) && Placeable(w, b, c, a) && OfflineOK(w) && b in w.par
    ensures OfflineOK(Placed(w, norm, b, c, a, r, q))
  {
    hide KindsOK, OwnersOK, Placed, Halfway;
    PlacedRest(w, norm, b, c, a, r, q);
    HalfwayBuddies(w, norm, b, w.par[c], r);
  }

  /** The list and the online count of the contact that gains the buddy. */
  lemma PlacedAt(w: World, norm: string -> string, b: Node, c: Node, a: Node?, r: Node?, q: Node?)
    requires WellFormed(w) && Placeable(w, b, c, a) && b in w.par && w.par[b] != c
    ensures var u := Placed(w, norm, b, c, a, r, q);
      && c in w.kids && c in u.kids && c in w.online && c in u.online
      && u.kids[c] == AddAfter(w.kids[c], a, b) && u.online[c] == w.online[c] + Bit(IsOnline(w, b))
      && u.info == w.info && u.connected == w.connected
  {
    hide Placed, Halfway, Detached;
    PlacedRest(w, norm, b, c, a, r, q);
    HalfwayRest(w, norm, b, w.par[c], r);
    OtherContact(w, b, c);
    OtherCount(w, b, c);
  }

  lemma OtherCount(w: World, b: Node, c: Node)
    requires WellFormed(w) && b in w.par && b.kind.Buddy? && c in w.kids && c.kind.Contact? && c != w.par[b]
    ensures var v := Detached(w, b); c in v.online && v.online[c] == w.online[c]
  {
  }

  /** A moved buddy keeps its timer; one that is new to the list brings it. */
  lemma PlacedTimers(w: World, norm: string -> string, b: Node, c: Node, a: Node?, r: Node?, q: Node?)
    requires WellFormed(w) && Placeable(w, b, c, a) && TimersOK(w)
    ensures TimersOK(Placed(w, norm, b, c, a, r, q)) <==> TimerAt(w.info, b)
    ensures b in w.par ==> TimerAt(w.info, b)
  {
    PlacedRest(w, norm, b, c, a, r, q);
    var v, u := Halfway(w, norm, b, w.par[c], r), Placed(w, norm, b, c, a, r, q);
    HalfwayBuddies(w, norm, b, w.par[c], r);
    assert u.par == v.par[b := c];
    assert b in u.par;
  }

  lemma HalfwayBuddies(w: World, norm: string -> string, b: Node, g: Node?, r: Node?)
    requires WellFormed(w) && b.kind.Buddy?
    ensures forall n: Node {:trigger n in Halfway(w, norm, b, g, r).par} ::
      n in Halfway(w, norm, b, g, r).par && n.kind.Buddy? ==> n in w.par
    ensures forall n: Node {:trigger n in w.par} ::
      n in w.par && n.kind.Buddy? && n != b ==> n in Halfway(w, norm, b, g, r).par
  {
    if b in w.par { HalfwayRest(w, norm, b, g, r); }
  }

  /** A buddy that is signing off is not in the online counts the move touches. */
  lemma UncountedMove(w: World, norm: string -> string, b: Node, c: Node, a: Node?, r: Node?, q: Node?)
    requires WellFormed(w) && Placeable(w, b, c, a) && b in w.par && !IsOnline(w, b)
    ensures Placed(w, norm, b, c, a, r, q).online == w.online
  {
    PlacedRest(w, norm, b, c, a, r, q);
    SameOnline(w, b);
    JoinedUncounted(Halfway(w, norm, b, w.par[c], r), b, c, a);
  }

  lemma SameOnline(w: World, b: Node)
    requires WellFormed(w) && b in w.par && b.kind.Buddy? && !IsOnline(w, b)
    ensures Detached(w, b).online == w.online
  {
  }

  lemma JoinedUncounted(w: World, b: Node, c: Node, a: Node?)
    requires CanJoin(w, b, c, a) && !IsOnline(w, b)
    ensures Joined(w, b, c, a).online == w.online
  {
  }

  /** But it is in the recount: the counts stay right only if it stays in its contact. */
  lemma StaysInContact(w: World, b: Node, a: Node?)
    requires WellFormed(w) && b in w.par && b.kind.Buddy? && Placeable(w, b, w.par[b], a)
    ensures Detached(w, b).kids == Removed(w, b).kids && Detached(w, b).par == Removed(w, b).par
    ensures a != null ==> a in Removed(w, b).kids[w.par[b]]
  {
    var d: Node := w.par[b];
    assert d in w.kids;
    WithoutMembers(w.kids[d], b);
    if a == null { assert w.kids[d][0] in w.kids[d]; }
    assert Left(w, b).kids[d] != [];
  }

  lemma Reordered(w: World, f: Node -> bool, m: map<Node, int>, b: Node, a: Node?)
    requires WellFormed(w) && b in w.par && b.kind.Buddy? && Consistent(w.kids, f, m)
    requires a != null ==> a in Removed(w, b).kids[w.par[b]]
    ensures Consistent(Inserted(Removed(w, b), b, w.par[b], a).kids, f, m)
  {
    hide Consistent, Tally, SameTally, ListsOK, KindsOK;
    LeafRemoved(w, b);
    BuddyRemoved(w, f, b);
    SeatFree(w, b);
    var l := Removed(w, b);
    BuddyInserted(l, f, b, w.par[b], a);
    TalliesBack(w, l, Inserted(l, b, w.par[b], a), f, m, w.par[b], w.par[w.par[b]], f(b));
  }

  lemma SeatFree(w: World, b: Node)
    requires WellFormed(w) && b in w.par && b.kind.Buddy?
    ensures var l, c := Removed(w, b), w.par[b];
      && b !in l.par && b !in l.kids && c != null && c in l.kids && c.kind.Contact? && c in w.par && w.par[c] in w.kids
      && w.par[c] != null && w.par[c] != c && l.kids.Keys == w.kids.Keys && l.par[c] == w.par[c]
  {
  }

  /** One more in contact c of group g after one less is as many as before. */
  lemma TalliesBack(w: World, l: World, v: World, f: Node -> bool, m: map<Node, int>, c: Node, g: Node, x: bool)
    requires Consistent(w.kids, f, m) && l.kids.Keys == w.kids.Keys && v.kids.Keys == w.kids.Keys
    requires c in w.kids && g in w.kids && c != g
    requires Tally(l.kids, f, c) == Tally(w.kids, f, c) - Bit(x)
    requires Tally(l.kids, f, g) == Tally(w.kids, f, g) - Bit(x && Tally(l.kids, f, c) == 0)
    requires Tally(v.kids, f, c) == Tally(l.kids, f, c) + Bit(x)
    requires Tally(v.kids, f, g) == Tally(l.kids, f, g) + Bit(x && Tally(l.kids, f, c) == 0)
    requires forall p: Node {:trigger p in l.kids} :: p in l.kids && p != c && p != g ==> SameTally(w, l, f, f, p)
    requires forall p: Node {:trigger p in v.kids} :: p in v.kids && p != c && p != g ==> SameTally(l, v, f, f, p)
    ensures Consistent(v.kids, f, m)
  {
    hide Tally;
    forall p: Node | p in v.kids ensures m[p] == Tally(v.kids, f, p) { assert p in l.kids && p in w.kids; }
  }

  lemma OnlineStays(w: World, u: World, b: Node, a: Node?)
    requires WellFormed(w) && OnlineOK(w) && b in w.par && b.kind.Buddy?
    requires (a != null ==> a in Removed(w, b).kids[w.par[b]])
    requires u.info == w.info && u.connected == w.connected && u.online == w.online
    requires u.kids == Inserted(Removed(w, b), b, w.par[b], a).kids
    requires u.par == Inserted(Removed(w, b), b, w.par[b], a).par
    ensures OnlineOK(u)
  {
    Reordered(w, OnlineF(w.info, w.connected), w.online, b, a);
    assert OfflineOK(u) by {
      assert forall n: Node :: n in u.par ==> n in w.par;
    }
  }

  lemma OtherContact(w: World, b: Node, c: Node)
    requires WellFormed(w) && b in w.par && b.kind.Buddy? && c in w.kids && c.kind.Contact? && c != w.par[b]
    ensures var v := Detached(w, b); c in v.kids && v.kids[c] == w.kids[c]
  {
  }

  lemma Overcounted(kids: map<Node?, seq<Node>>, more: map<Node?, seq<Node>>, f: Node -> bool, m: map<Node, int>,
    b: Node, c: Node, a: Node?)
    requires c in kids && c.kind.Contact? && Consistent(kids, f, m) && f(b) && Distinct(kids[c])
    requires a != null ==> a in kids[c]
    requires c in more && more[c] == AddAfter(kids[c], a, b)
    ensures !Consistent(more, f, m)
  {
    CountAddAfter(kids[c], a, b, f);
    assert m[c] != Tally(more, f, c);
  }

  /** The priority buddies r and q were chosen by the scan. */
  ghost predicate Chose(w: World, norm: string -> string, b: Node, c: Node, a: Node?, r: Node?, q: Node?) {
    && WellFormed(w) && Placeable(w, b, c, a) && b.kind.Buddy?
    && (b in w.par && w.par[b] in Halfway(w, norm, b, w.par[c], r).kids ==>
          PriorityAt(Halfway(w, norm, b, w.par[c], r), w.par[b]))
    && c in Placed(w, norm, b, c, a, r, q).kids && PriorityAt(Placed(w, norm, b, c, a, r, q), c)
  }

  /** What a move of a buddy keeps: the invariants always, the priority buddies always, and the
      online counts exactly if the buddy is settled or stays in its contact. */
  lemma PlacedKeeps(w: World, norm: string -> string, b: Node, c: Node, a: Node?, r: Node?, q: Node?)
    requires Inv(w, norm) && Placeable(w, b, c, a) && NoClash(w, norm, b, w.par[c]) && Chose(w, norm, b, c, a, r, q)
    ensures var v := Placed(w, norm, b, c, a, r, q);
      && Inv(v, norm)
      && (PrioritiesOK(w) ==> PrioritiesOK(v))
      && (OnlineOK(w) ==> (OnlineOK(v) <==> Settled(w, b) || (b in w.par && w.par[b] == c)))
      && (TimersOK(w) ==> (TimersOK(v) <==> TimerAt(w.info, b)))
  {
    if TimersOK(w) { PlacedTimers(w, norm, b, c, a, r, q); }
    PlacedInv(w, norm, b, c, a, r, q);
    if PrioritiesOK(w) { PlacedPriorities(w, norm, b, c, a, r, q); }
    if OnlineOK(w) { PlacedOnline(w, norm, b, c, a, r, q); }
  }

  /** The buddy is asked to go where it is already. */
  ghost predicate Stays(w: World, b: Node, contact: Node?, node: Node?) {
    b == node || (node == null && contact != null && b in w.par && w.par[b] == contact
      && contact in w.kids && w.kids[contact] != [] && w.kids[contact][0] == b)
  }

  /** The group a buddy is asked to go to. */
  ghost function TargetGroup(w: World, contact: Node?, group: Node?, node: Node?): Node? {
    if node != null then
      (if node in w.par && w.par[node] != null && w.par[node] in w.par then w.par[w.par[node]] else null)
    else if contact != null then (if contact in w.par then w.par[contact] else null)
    else group
  }
}
