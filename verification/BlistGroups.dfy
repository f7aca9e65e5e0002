/** Chats, groups, and nodes that are new to the list. */
module BlistGroups {
  import opened BlistModel
  import opened BlistTally
  import opened BlistMoves
  import opened BlistContacts

  // --------------------------------------------------------------------------- chats

  ghost function ChatCounts(w: World, x: Node, g: Node, d: int): World
    requires HasCounts(w, g)
  {
    var e := if x.account in w.connected then d else 0;
    w.(total := w.total[g := w.total[g] + d], current := w.current[g := w.current[g] + e],
        online := w.online[g := w.online[g] + e])
  }

  ghost predicate ChatPlaceable(w: World, x: Node, g: Node, a: Node?) {
    && x.kind.Chat? && (x in w.par || (x in w.nodes && x !in w.kids)) && x != a
    && g in w.kids && g in w.par && g.kind.Group? && (a != null ==> a in w.kids[g])
  }

  /** x is out of the tree and out of its group's counts. */
  ghost function ChatLifted(w: World, x: Node): World
    requires WellFormed(w)
  {
    if x in w.par && x.kind.Chat? then Removed(ChatCounts(w, x, w.par[x], -1), x) else w
  }

  /** x, so far out of the tree, has joined group g. */
  ghost function ChatSeated(w: World, x: Node, g: Node, a: Node?): World
    requires g in w.kids && HasCounts(w, g)
  {
    ChatCounts(Inserted(w, x, g, a), x, g, 1)
  }

  ghost predicate CanSeat(w: World, x: Node, g: Node, a: Node?) {
    && WellFormed(w) && x.kind.Chat? && x !in w.par && x !in w.kids && x in w.nodes
    && g in w.kids && g.kind.Group? && (a != null ==> a in w.kids[g])
  }

  ghost function ChatPlaced(w: World, x: Node, g: Node, a: Node?): World
    requires WellFormed(w) && ChatPlaceable(w, x, g, a)
  {
    ChatLiftedPlace(w, x, g, a);
    ChatSeated(ChatLifted(w, x), x, g, a)
  }

  lemma SeatedSizes(w: World, x: Node, g: Node, a: Node?)
    requires CanSeat(w, x, g, a) && SizesOK(w)
    ensures SizesOK(ChatSeated(w, x, g, a))
  {
    ChatInserted(w, ConnectedF(w.connected), x, g, a);
    ChatJoinedConsistent(w, ConnectedF(w.connected), w.current, x, g, a);
  }

  lemma SeatedOnline(w: World, x: Node, g: Node, a: Node?)
    requires CanSeat(w, x, g, a) && OnlineOK(w)
    ensures OnlineOK(ChatSeated(w, x, g, a))
  {
    ChatJoinedConsistent(w, OnlineF(w.info, w.connected), w.online, x, g, a);
  }

  lemma ChatLiftedOK(w: World, x: Node)
    requires WellFormed(w) && x.kind.Chat?
    ensures WellFormed(ChatLifted(w, x)) && x !in ChatLifted(w, x).par
  {
    if x in w.par { LeafRemoved(w, x); }
  }

  lemma ChatLiftedSizes(w: World, x: Node)
    requires WellFormed(w) && SizesOK(w) && x.kind.Chat?
    ensures SizesOK(ChatLifted(w, x))
  {
    if x in w.par { ChatLeftConsistent(w, ConnectedF(w.connected), w.current, x); }
  }

  lemma ChatLiftedOnline(w: World, x: Node)
    requires WellFormed(w) && OnlineOK(w) && x.kind.Chat?
    ensures OnlineOK(ChatLifted(w, x))
  {
    if x in w.par { ChatLeftConsistent(w, OnlineF(w.info, w.connected), w.online, x); }
  }

  lemma ChatLiftedPlace(w: World, x: Node, g: Node, a: Node?)
    requires WellFormed(w) && ChatPlaceable(w, x, g, a)
    ensures CanSeat(ChatLifted(w, x), x, g, a)
  {
    ChatLiftedOK(w, x);
    if x in w.par && w.par[x] == g { WithoutMembers(w.kids[g], x); }
  }

  /** Moving a chat keeps the sizes and the online counts. */
  lemma ChatPlacedCounts(w: World, x: Node, g: Node, a: Node?)
    requires WellFormed(w) && SizesOK(w) && ChatPlaceable(w, x, g, a)
    ensures SizesOK(ChatPlaced(w, x, g, a))
    ensures OnlineOK(w) ==> OnlineOK(ChatPlaced(w, x, g, a))
  {
    ChatLiftedSizes(w, x);
    ChatLiftedPlace(w, x, g, a);
    SeatedSizes(ChatLifted(w, x), x, g, a);
    if OnlineOK(w) {
      ChatLiftedOnline(w, x);
      SeatedOnline(ChatLifted(w, x), x, g, a);
    }
  }

  lemma ChatPlacedWellFormed(w: World, x: Node, g: Node, a: Node?)
    requires WellFormed(w) && ChatPlaceable(w, x, g, a)
    ensures WellFormed(ChatPlaced(w, x, g, a))
  {
    ChatLiftedPlace(w, x, g, a);
    LeafInserted(ChatLifted(w, x), x, g, a);
  }

  /** Chats are nobody's concern but their group's: names and priorities stay. */
  lemma ChatPlacedNames(w: World, x: Node, g: Node, a: Node?)
    requires WellFormed(w) && ChatPlaceable(w, x, g, a) && WellFormed(ChatPlaced(w, x, g, a))
    ensures NamesOK(w) ==> NamesOK(ChatPlaced(w, x, g, a))
    ensures PrioritiesOK(w) ==> PrioritiesOK(ChatPlaced(w, x, g, a))
  {
    var u := ChatLifted(w, x);
    assert u.kids[null] == w.kids[null];
    assert PrioritiesOK(w) ==> PrioritiesOK(u);
  }

  lemma ChatPlacedIndex(w: World, norm: string -> string, x: Node, g: Node, a: Node?)
    requires WellFormed(w) && ChatPlaceable(w, x, g, a) && IndexOK(w, norm, w.index)
    ensures var v := ChatPlaced(w, x, g, a); IndexOK(v, norm, v.index)
  {
    assert ChatPlaced(w, x, g, a).par == w.par[x := g];
    LeafKeys(w.par, norm, x, g);
  }

  lemma LeafKeys(par: map<Node, Node?>, norm: string -> string, x: Node, g: Node)
    requires x.kind.Chat? && Childless(par, x)
    ensures Keys(par[x := g], norm) == Keys(par, norm)
  {
  }

  lemma ChatPlacedInv(w: World, norm: string -> string, x: Node, g: Node, a: Node?)
    requires Inv(w, norm) && ChatPlaceable(w, x, g, a)
    ensures Inv(ChatPlaced(w, x, g, a), norm)
  {
    ChatPlacedWellFormed(w, x, g, a);
    ChatPlacedCounts(w, x, g, a);
    ChatPlacedNames(w, x, g, a);
    ChatPlacedIndex(w, norm, x, g, a);
  }

  /** Moving a chat keeps everything. */
  lemma ChatPlacedKeeps(w: World, norm: string -> string, x: Node, g: Node, a: Node?)
    requires Inv(w, norm) && ChatPlaceable(w, x, g, a)
    ensures Inv(ChatPlaced(w, x, g, a), norm) && Keeps(w, ChatPlaced(w, x, g, a))
  {
    ChatPlacedInv(w, norm, x, g, a);
    ChatPlacedCounts(w, x, g, a);
    ChatPlacedNames(w, x, g, a);
    if TimersOK(w) { ChatPlacedTimers(w, x, g, a); }
  }

  lemma ChatPlacedTimers(w: World, x: Node, g: Node, a: Node?)
    requires WellFormed(w) && ChatPlaceable(w, x, g, a) && TimersOK(w)
    ensures TimersOK(ChatPlaced(w, x, g, a))
  {
    ChatLiftedPlace(w, x, g, a);
    TimersStay(w, ChatPlaced(w, x, g, a));
  }

  // -------------------------------------------------------------------------- groups

  ghost predicate GroupPlaceable(w: World, g: Node, a: Node?) {
    && g.kind.Group? && (g in w.par || Unlisted(w, g)) && g != a
    && null in w.kids && (a != null ==> a in w.kids[null])
  }

  ghost predicate FreshName(w: World, g: Node) {
    && g in w.names && null in w.kids
    && (g !in w.par ==> forall i :: 0 <= i < |w.kids[null]| ==>
          w.kids[null][i] in w.names && w.names[w.kids[null][i]] != w.names[g])
  }

  ghost function GroupLifted(w: World, g: Node): World
    requires WellFormed(w)
  {
    if g in w.par then Removed(w, g) else Adopted(w, g)
  }

  ghost function GroupPlaced(w: World, g: Node, a: Node?): World
    requires WellFormed(w)
  {
    Inserted(GroupLifted(w, g), g, null, a)
  }

  lemma GroupLiftedLists(w: World, g: Node, a: Node?)
    requires WellFormed(w) && GroupPlaceable(w, g, a)
    ensures var v := GroupLifted(w, g);
      ListsOK(v.kids, v.par) && g !in v.par && g in v.kids && null in v.kids && (a != null ==> a in v.kids[null])
  {
    if g in w.par {
      RemovedLists(w, g);
      WithoutMembers(w.kids[null], g);
    } else {
      AdoptedLists(w, g);
    }
  }

  lemma AdoptedLists(w: World, g: Node)
    requires WellFormed(w) && Unlisted(w, g)
    ensures ListsOK(Adopted(w, g).kids, Adopted(w, g).par)
  {
  }

  /** Placing a group changes the list of groups only. */
  lemma GroupPlacedKids(w: World, g: Node, a: Node?)
    requires WellFormed(w) && GroupPlaceable(w, g, a)
    ensures var v := GroupPlaced(w, g, a);
      && v.par == w.par[g := null] && v.kids.Keys == w.kids.Keys + {g}
      && (forall p: Node {:trigger p in v.kids} :: p in v.kids ==> v.kids[p] == if p in w.kids then w.kids[p] else [])
  {
    var v := GroupPlaced(w, g, a);
    assert g in w.par ==> w.par[g] == null && g in w.kids;
    assert v.par == w.par[g := null];
    var u := GroupLifted(w, g);
    assert u.kids.Keys == w.kids.Keys + {g};
    assert v.kids == u.kids[null := v.kids[null]];
  }

  lemma GroupPlacedWellFormed(w: World, g: Node, a: Node?)
    requires WellFormed(w) && GroupPlaceable(w, g, a)
    ensures WellFormed(GroupPlaced(w, g, a))
    ensures MembersPlus(GroupPlaced(w, g, a).kids[null], GroupLifted(w, g).kids[null], g)
  {
    GroupLiftedLists(w, g, a);
    var u, v := GroupLifted(w, g), GroupPlaced(w, g, a);
    InsertedLists(u, g, null, a);
    GroupPlacedKids(w, g, a);
    forall n: Node | n in v.par ensures KindOK(v.kids, v.par, n) { assert n in w.par ==> KindOK(w.kids, w.par, n); }
    assert Distinct(u.kids[null]) && g !in u.kids[null];
    AddAfterMembers(u.kids[null], a, g);
  }

  lemma GroupPlacedConsistent(w: World, f: Node -> bool, m: map<Node, int>, g: Node, a: Node?)
    requires WellFormed(w) && GroupPlaceable(w, g, a) && Consistent(w.kids, f, m) && g in m
    requires (g !in w.par ==> m[g] == 0)
    ensures Consistent(GroupPlaced(w, g, a).kids, f, m)
  {
    var v := GroupPlaced(w, g, a);
    GroupPlacedKids(w, g, a);
    forall p: Node | p in v.kids ensures m[p] == Tally(v.kids, f, p) {
      if p in w.kids { SameListTally(w, v.kids, f, g, p); }
    }
  }

  lemma SameListTally(w: World, kids: map<Node?, seq<Node>>, f: Node -> bool, g: Node, p: Node)
    requires WellFormed(w) && p in w.kids && p in kids && kids[p] == w.kids[p] && g.kind.Group?
    requires forall n: Node {:trigger n in kids} :: n in kids && n != g ==> n in w.kids && kids[n] == w.kids[n]
    requires forall n: Node {:trigger n in w.kids} :: n in w.kids ==> n in kids
    ensures Tally(kids, f, p) == Tally(w.kids, f, p)
  {
    forall i | 0 <= i < |kids[p]| ensures LiveF(kids, f)(kids[p][i]) == LiveF(w.kids, f)(kids[p][i]) {
      assert kids[p][i] in w.kids[p];
      assert kids[p][i] != g;
    }
    CountAgree(kids[p], LiveF(kids, f), LiveF(w.kids, f));
  }

  lemma GroupPlacedInv(w: World, norm: string -> string, g: Node, a: Node?)
    requires Inv(w, norm) && GroupPlaceable(w, g, a) && FreshName(w, g)
    ensures Inv(GroupPlaced(w, g, a), norm)
  {
    GroupPlacedWellFormed(w, g, a);
    GroupPlacedKids(w, g, a);
    GroupPlacedConsistent(w, ConnectedF(w.connected), w.current, g, a);
    GroupKeys(w.par, norm, g);
    GroupPlacedNames(w, g, a);
  }

  lemma GroupKeys(par: map<Node, Node?>, norm: string -> string, g: Node)
    requires g.kind.Group? && (if g in par then par[g] == null else Childless(par, g))
    ensures Keys(par[g := null], norm) == Keys(par, norm)
  {
  }

  lemma GroupPlacedNames(w: World, g: Node, a: Node?)
    requires WellFormed(w) && NamesOK(w) && GroupPlaceable(w, g, a) && FreshName(w, g)
    requires WellFormed(GroupPlaced(w, g, a))
    ensures NamesOK(GroupPlaced(w, g, a))
  {
    var v := GroupPlaced(w, g, a);
    GroupPlacedWellFormed(w, g, a);
    forall h: Node, k: Node | h in v.kids[null] && k in v.kids[null] && v.names[h] == v.names[k] ensures h == k {
      if g in w.par { WithoutMembers(w.kids[null], g); }
      assert h == g || h in w.kids[null];
      assert k == g || k in w.kids[null];
    }
  }

  lemma GroupPlacedRest(w: World, g: Node, a: Node?)
    requires WellFormed(w) && GroupPlaceable(w, g, a)
    ensures Keeps(w, GroupPlaced(w, g, a))
  {
    GroupPlacedKids(w, g, a);
    if TimersOK(w) { TimersStay(w, GroupPlaced(w, g, a)); }
    if OnlineOK(w) { GroupPlacedConsistent(w, OnlineF(w.info, w.connected), w.online, g, a); }
  }

  /** A group without children is dropped from the list; others stay. */
  ghost function GroupRemoved(w: World, g: Node): World
    requires WellFormed(w) && g in w.par && g.kind.Group?
  {
    if w.kids[g] == [] then Dropped(Removed(w, g), g) else w
  }

  lemma GroupRemovedLists(w: World, g: Node)
    requires WellFormed(w) && g in w.par && g.kind.Group?
    ensures g in w.kids && null in w.kids && (w.kids[g] != [] ==> GroupRemoved(w, g) == w)
    ensures var v := GroupRemoved(w, g);
      w.kids[g] == [] ==> g !in v.par && v.kids == (w.kids - {g})[null := Without(w.kids[null], g)]
  {
    assert w.par[g] == null;
  }

  lemma GroupRemovedInv(w: World, norm: string -> string, g: Node)
    requires Inv(w, norm) && g in w.par && g.kind.Group?
    ensures Inv(GroupRemoved(w, g), norm)
  {
    if w.kids[g] == [] {
      GroupRemovedShape(w, g);
      GroupRemovedConsistent(w, ConnectedF(w.connected), w.current, g);
      GroupGoneKeys(w.par, norm, g);
    }
  }

  lemma GroupGoneKeys(par: map<Node, Node?>, norm: string -> string, g: Node)
    requires g in par && g.kind.Group? && Childless(par, g)
    ensures Keys(par - {g}, norm) == Keys(par, norm)
  {
  }

  lemma GroupRemovedRest(w: World, g: Node)
    requires WellFormed(w) && g in w.par && g.kind.Group?
    ensures Keeps(w, GroupRemoved(w, g))
  {
    if TimersOK(w) { TimersStay(w, GroupRemoved(w, g)); }
    if w.kids[g] == [] && OnlineOK(w) { GroupRemovedConsistent(w, OnlineF(w.info, w.connected), w.online, g); }
  }

  lemma GroupRemovedShape(w: World, g: Node)
    requires WellFormed(w) && g in w.par && g.kind.Group? && w.kids[g] == []
    ensures WellFormed(GroupRemoved(w, g)) && Childless(w.par, g)
    ensures NamesOK(w) ==> NamesOK(GroupRemoved(w, g))
  {
    RemovedLists(w, g);
    WithoutMembers(w.kids[null], g);
    var u, v := Removed(w, g), GroupRemoved(w, g);
    assert forall n: Node :: n in w.par ==> w.par[n] != g;
    forall n: Node | n in v.par ensures KindOK(v.kids, v.par, n) { assert KindOK(w.kids, w.par, n); }
  }

  lemma GroupRemovedConsistent(w: World, f: Node -> bool, m: map<Node, int>, g: Node)
    requires WellFormed(w) && g in w.par && g.kind.Group? && w.kids[g] == [] && Consistent(w.kids, f, m)
    ensures Consistent(GroupRemoved(w, g).kids, f, m)
  {
    var v := GroupRemoved(w, g);
    forall p: Node | p in v.kids ensures p in w.kids && m[p] == Tally(v.kids, f, p) {
      forall i | 0 <= i < |v.kids[p]| ensures LiveF(v.kids, f)(v.kids[p][i]) == LiveF(w.kids, f)(v.kids[p][i]) {
        assert v.kids[p][i] in w.kids[p];
      }
      CountAgree(v.kids[p], LiveF(v.kids, f), LiveF(w.kids, f));
    }
  }

  /** The world in which nobody is on the list. */
  ghost const NOBODY: World :=
    World(map[null := []], map[], {}, map[], map[], map[], map[], map[], map[], map[], {})

  lemma NobodyOK(norm: string -> string)
    ensures Inv(NOBODY, norm) && PrioritiesOK(NOBODY) && OnlineOK(NOBODY) && TimersOK(NOBODY)
  {
  }

  /** g has been asked to go right after node. */
  ghost function GroupAdded(w: World, g: Node, node: Node?): World
    requires WellFormed(w)
  {
    if w.kids[null] == [] then GroupPlaced(w, g, null)
    else if g == node then w
    else GroupPlaced(w, g, if node != null && node.kind.Group? then node else null)
  }

  /** g is the group of that name, found in w or made, which gives v. */
  ghost predicate GroupFound(w: World, v: World, g: Node, name: string)
    requires WellFormed(w)
  {
    && g.kind.Group? && (g in w.nodes <==> exists h: Node :: h in w.kids[null] && w.names[h] == name)
    && v == (if g in w.nodes then w else Admitted(w, g, name))
    && WellFormed(v) && g in v.names && v.names[g] == name && (g in w.nodes ==> g in w.kids[null])
  }

  /** Then it has been put at the end of the list. */
  ghost predicate DefaultMade(w: World, x: World, g: Node, name: string)
    requires WellFormed(w)
  {
    var v := if g in w.nodes then w else Admitted(w, g, name);
    GroupFound(w, v, g, name) && x == GroupAdded(v, g, Last(v.kids[null]))
  }

  lemma GroupPlacedNodes(w: World, g: Node, a: Node?)
    requires WellFormed(w)
    ensures GroupPlaced(w, g, a).nodes == w.nodes
  {
    assert null in w.kids && (g in w.par ==> w.par[g] in w.kids);
    hide WellFormed, Without, AddAfter;
    var v := GroupLifted(w, g);
    assert v.nodes == w.nodes && null in v.kids;
  }

  lemma GroupAddedNodes(w: World, g: Node, node: Node?)
    requires WellFormed(w)
    ensures GroupAdded(w, g, node).nodes == w.nodes
  {
    assert null in w.kids;
    hide WellFormed, GroupPlaced;
    GroupPlacedNodes(w, g, if w.kids[null] != [] && node != null && node.kind.Group? then node else null);
  }

  lemma DefaultBy(w: World, v: World, g: Node, name: string)
    requires WellFormed(w) && GroupFound(w, v, g, name)
    ensures DefaultMade(w, GroupAdded(v, g, Last(v.kids[null])), g, name)
    ensures v.nodes == w.nodes + {g} == GroupAdded(v, g, Last(v.kids[null])).nodes
  {
    LastIsGroup(v);
    hide WellFormed, GroupAdded;
    GroupAddedNodes(v, g, Last(v.kids[null]));
  }

  lemma LastIsGroup(w: World)
    requires WellFormed(w)
    ensures var a := Last(w.kids[null]); a != null ==> a in w.kids[null] && a.kind.Group?
  {
    var s := w.kids[null];
    if s != [] { assert s[|s| - 1] in s; }
  }

  // ------------------------------------------------------------------------ new nodes

  /** A node that has just been made, with the fields the constructor gives it. */
  ghost function Admitted(w: World, n: Node, name: string): World {
    w.(nodes := w.nodes + {n}, total := w.total[n := 0], current := w.current[n := 0], online := w.online[n := 0],
       prio := w.prio[n := null], names := w.names[n := name], info := w.info[n := Info(Offline, 0, 0, false)])
  }

  lemma AdmittedUnlisted(w: World, n: Node, name: string)
    requires WellFormed(w) && n !in w.nodes
    ensures Unlisted(Admitted(w, n, name), n)
  {
    assert forall x: Node :: x in w.par ==> w.par[x] != n;
  }

  lemma AdmittedInv(w: World, norm: string -> string, n: Node, name: string)
    requires Inv(w, norm) && n !in w.nodes
    ensures Inv(Admitted(w, n, name), norm)
  {
  }

  lemma AdmittedOnline(w: World, n: Node, name: string)
    requires WellFormed(w) && n !in w.nodes && OnlineOK(w)
    ensures OnlineOK(Admitted(w, n, name))
  {
    var v := Admitted(w, n, name);
    ConsistentAgree(w, OnlineF(w.info, w.connected), OnlineF(v.info, v.connected), w.online);
    ConsistentBeside(w.kids, OnlineF(v.info, v.connected), w.online, n);
  }

  lemma ConsistentBeside(kids: map<Node?, seq<Node>>, f: Node -> bool, m: map<Node, int>, n: Node)
    requires Consistent(kids, f, m) && n !in kids
    ensures Consistent(kids, f, m[n := 0])
  {
  }

  lemma AdmittedPriorities(w: World, n: Node, name: string)
    requires WellFormed(w) && n !in w.nodes && PrioritiesOK(w)
    ensures PrioritiesOK(Admitted(w, n, name))
  {
    var v := Admitted(w, n, name);
    forall c: Node | c in v.kids && c.kind.Contact? ensures PriorityAt(v, c) {
      assert PriorityAt(w, c);
      forall i | 0 <= i < |w.kids[c]| ensures w.kids[c][i] != n { assert w.kids[c][i] in w.kids[c]; }
      SamePriority(w.kids[c], w.info, v.info, w.connected, w.prio[c]);
    }
  }

  /** A new node keeps everything. */
  lemma AdmittedKeeps(w: World, norm: string -> string, n: Node, name: string)
    requires Inv(w, norm) && n !in w.nodes
    ensures Inv(Admitted(w, n, name), norm) && Keeps(w, Admitted(w, n, name))
  {
    AdmittedInv(w, norm, n, name);
    if OnlineOK(w) { AdmittedOnline(w, n, name); }
    if PrioritiesOK(w) { AdmittedPriorities(w, n, name); }
    if TimersOK(w) { TimersStay(w, Admitted(w, n, name)); }
  }

  lemma SamePriority(s: seq<Node>, info: map<Node, Info>, info': map<Node, Info>, connected: set<Account>, r: Node?)
    requires IsPriority(s, info, connected, r)
    requires forall i ::
        0 <= i < |s| ==> (s[i] in info <==> s[i] in info') && (s[i] in info ==> info'[s[i]] == info[s[i]])
    ensures IsPriority(s, info', connected, r)
  {
    if r != null {
      var k :| 0 <= k < |s| && s[k] == r && IsFirstBest(s, info, connected, k);
      assert IsFirstBest(s, info', connected, k);
    }
  }

  /** The new contact c has been put at the end of group g. */
  ghost function WithContact(w: World, norm: string -> string, c: Node, g: Node): World
    requires WellFormed(w) && c.kind.Contact? && c !in w.nodes && g in w.kids && g.kind.Group?
  {
    NewContactPlaceable(w, c, g);
    ContactPlaced(Admitted(w, c, ""), norm, c, g, Last(w.kids[g]))
  }

  lemma AdmittedWellFormed(w: World, n: Node, name: string)
    requires WellFormed(w) && n !in w.nodes
    ensures WellFormed(Admitted(w, n, name))
  {
  }

  lemma NewContactPlaceable(w: World, c: Node, g: Node)
    requires WellFormed(w) && c.kind.Contact? && c !in w.nodes && g in w.kids && g.kind.Group?
    ensures var v := Admitted(w, c, ""); WellFormed(v) && ContactPlaceable(v, c, g, Last(w.kids[g]))
  {
    AdmittedWellFormed(w, c, "");
    AdmittedUnlisted(w, c, "");
    var s := w.kids[g];
    if s != [] { assert s[|s| - 1] in s; }
  }

  /** A buddy can be put into a new contact of g wherever it was, and clashes with no more than before. */
  lemma WithContactReady(w: World, norm: string -> string, b: Node, c: Node, g: Node)
    requires WellFormed(w) && c.kind.Contact? && c !in w.nodes && g in w.kids && g.kind.Group?
    requires b in w.nodes && b.kind.Buddy? && b !in w.kids && NoClash(w, norm, b, g)
    ensures var v := WithContact(w, norm, c, g);
      && WellFormed(v) && Placeable(v, b, c, null) && v.par[c] == g && NoClash(v, norm, b, g)
      && v.par == w.par[c := g] && v.info == w.info[c := Info(Offline, 0, 0, false)] && v.connected == w.connected
          && b in v.nodes
  {
    NewContactPlaceable(w, c, g);
    ContactPlacedWellFormed(Admitted(w, c, ""), norm, c, g, Last(w.kids[g]));
  }

  /** The world in which the buddy's contact c is found: it may have to be made. */
  ghost function Before(w: World, norm: string -> string, contact: Node?, group: Node?, node: Node?, c: Node): World
    requires WellFormed(w)
  {
    if node == null && contact == null && group != null && c.kind.Contact? && c !in w.nodes && group in w.kids
        && group.kind.Group?
    then WithContact(w, norm, c, group)
    else w
  }

  /** v is w after b has been asked to go to node, contact or group, and has gone to c;
      r and q are the priority buddies the scan chose on the way. */
  ghost predicate BuddyAdded(w: World, v: World, norm: string -> string, b: Node,
    contact: Node?, group: Node?, node: Node?, c: Node, r: Node?, q: Node?)
    requires WellFormed(w)
  {
    if Stays(w, b, contact, node) then v == w
    else
      var m := Before(w, norm, contact, group, node, c);
      && (node != null ==> node in w.par && c == w.par[node])
      && (node == null && contact != null ==> c == contact)
      && (node == null && contact == null ==> c !in w.nodes && c in m.par && m.par[c] == group)
      && Chose(m, norm, b, c, node, r, q) && v == Placed(m, norm, b, c, node, r, q)
  }

  lemma WithContactInv(w: World, norm: string -> string, c: Node, g: Node)
    requires Inv(w, norm) && c.kind.Contact? && c !in w.nodes && g in w.kids && g.kind.Group?
    ensures Inv(WithContact(w, norm, c, g), norm)
  {
    NewContactPlaceable(w, c, g);
    AdmittedInv(w, norm, c, "");
    ContactPlacedInv(Admitted(w, c, ""), norm, c, g, Last(w.kids[g]));
  }

  lemma WithContactPriorities(w: World, norm: string -> string, c: Node, g: Node)
    requires WellFormed(w) && PrioritiesOK(w) && c.kind.Contact? && c !in w.nodes && g in w.kids && g.kind.Group?
    ensures PrioritiesOK(WithContact(w, norm, c, g))
  {
    NewContactPlaceable(w, c, g);
    AdmittedPriorities(w, c, "");
    ContactPlacedPriorities(Admitted(w, c, ""), norm, c, g, Last(w.kids[g]));
  }

  lemma WithContactOnline(w: World, norm: string -> string, c: Node, g: Node)
    requires Inv(w, norm) && OnlineOK(w) && c.kind.Contact? && c !in w.nodes && g in w.kids && g.kind.Group?
    ensures OnlineOK(WithContact(w, norm, c, g))
  {
    NewContactPlaceable(w, c, g);
    AdmittedInv(w, norm, c, "");
    AdmittedOnline(w, c, "");
    ContactPlacedCounts(Admitted(w, c, ""), norm, c, g, Last(w.kids[g]));
  }

  lemma WithContactTimers(w: World, norm: string -> string, c: Node, g: Node)
    requires WellFormed(w) && TimersOK(w) && c.kind.Contact? && c !in w.nodes && g in w.kids && g.kind.Group?
    ensures TimersOK(WithContact(w, norm, c, g))
  {
    NewContactPlaceable(w, c, g);
    AdmittedWellFormed(w, c, "");
    TimersStay(w, Admitted(w, c, ""));
    ContactPlacedTimers(Admitted(w, c, ""), norm, c, g, Last(w.kids[g]));
  }

  /** Making a contact at the end of group g changes no state of a buddy, and no key. */
  lemma WithContactRest(w: World, norm: string -> string, c: Node, g: Node)
    requires WellFormed(w) && c.kind.Contact? && c !in w.nodes && g in w.kids && g.kind.Group?
    ensures var m := WithContact(w, norm, c, g);
      && m.nodes == w.nodes + {c} && m.info == w.info[c := Info(Offline, 0, 0, false)]
      && m.connected == w.connected && m.index == w.index
  {
    NewContactPlaceable(w, c, g);
  }

  lemma BeforeKeeps(w: World, norm: string -> string, b: Node, contact: Node?, group: Node?, node: Node?, c: Node)
    requires Inv(w, norm) && b in w.nodes
    ensures var m := Before(w, norm, contact, group, node, c);
      && Inv(m, norm) && b in m.nodes && m.info[b] == w.info[b] && m.connected == w.connected && m.index == w.index
      && Keeps(w, m)
  {
    hide SizesOK, NamesOK, IndexOK, OnlineOK, PrioritiesOK, TimersOK, Shape, WithContact;
    if node == null && contact == null && group != null && c.kind.Contact? && c !in w.nodes && group in w.kids
        && group.kind.Group? {
      WithContactInv(w, norm, c, group);
      if PrioritiesOK(w) { WithContactPriorities(w, norm, c, group); }
      if OnlineOK(w) { WithContactOnline(w, norm, c, group); }
      if TimersOK(w) { WithContactTimers(w, norm, c, group); }
      WithContactRest(w, norm, c, group);
    }
  }

  /** The contact b goes to is in the group it was asked to go to. */
  lemma BeforeTarget(w: World, v: World, norm: string -> string, b: Node,
    contact: Node?, group: Node?, node: Node?, c: Node, r: Node?, q: Node?)
    requires Inv(w, norm) && b in w.nodes && BuddyAdded(w, v, norm, b, contact, group, node, c, r, q)
    requires !Stays(w, b, contact, node) && NoClash(w, norm, b, TargetGroup(w, contact, group, node))
    ensures var m := Before(w, norm, contact, group, node, c);
      && WellFormed(m) && Placeable(m, b, c, node) && c in m.par && NoClash(m, norm, b, m.par[c])
      && (b in m.par <==> b in w.par) && (b in w.par ==> m.par[b] == w.par[b])
  {
    hide SizesOK, NamesOK, IndexOK, OnlineOK, PrioritiesOK, TimersOK, KindsOK, ListsOK, OwnersOK, Placed, WithContact;
    if node == null && contact == null {
      assert group != null && c.kind.Contact? && group in w.kids && group.kind.Group?;
      WithContactRest(w, norm, c, group);
      WithContactPar(w, norm, c, group);
    }
  }

  lemma WithContactPar(w: World, norm: string -> string, c: Node, g: Node)
    requires WellFormed(w) && c.kind.Contact? && c !in w.nodes && g in w.kids && g.kind.Group?
    ensures WithContact(w, norm, c, g).par == w.par[c := g]
  {
    NewContactPlaceable(w, c, g);
    ContactPlacedPar(Admitted(w, c, ""), norm, c, g, Last(w.kids[g]));
  }

  /** What adding or moving a buddy keeps: the invariants and the priority buddies always, the
      online counts exactly if the buddy is settled or stays in its contact. */
  lemma BuddyAddedKeeps(w: World, v: World, norm: string -> string, b: Node,
    contact: Node?, group: Node?, node: Node?, c: Node, r: Node?, q: Node?)
    requires Inv(w, norm) && b in w.nodes && BuddyAdded(w, v, norm, b, contact, group, node, c, r, q)
    requires NoClash(w, norm, b, TargetGroup(w, contact, group, node))
    ensures Inv(v, norm) && (PrioritiesOK(w) ==> PrioritiesOK(v))
    ensures OnlineOK(w) && !Stays(w, b, contact, node) ==>
      (OnlineOK(v) <==> Settled(w, b) || (b in w.par && w.par[b] == c))
    ensures TimersOK(w) && !Stays(w, b, contact, node) ==> (TimersOK(v) <==> TimerAt(w.info, b))
  {
    hide SizesOK, NamesOK, IndexOK, OnlineOK, PrioritiesOK, TimersOK, Shape, Before, Placed, NoClash, TargetGroup;
    if !Stays(w, b, contact, node) {
      BeforeTarget(w, v, norm, b, contact, group, node, c, r, q);
      BeforeKeeps(w, norm, b, contact, group, node, c);
      var m := Before(w, norm, contact, group, node, c);
      PlacedKeeps(m, norm, b, c, node, r, q);
    }
  }

  lemma AddedNowhere(w: World, norm: string -> string, b: Node,
    contact: Node?, group: Node?, node: Node?, c: Node, r: Node?, q: Node?)
    requires WellFormed(w) && Stays(w, b, contact, node)
    ensures BuddyAdded(w, w, norm, b, contact, group, node, c, r, q)
  {
  }

  /** A buddy that does not stay can be put right after node or in front of contact. */
  lemma NodeReady(w: World, b: Node, contact: Node?, node: Node?)
    requires WellFormed(w) && b in w.nodes && b.kind.Buddy? && b !in w.kids && !Stays(w, b, contact, node)
    requires (node != null || contact != null) && (node != null ==> node in w.par && node.kind.Buddy?)
    requires contact != null ==> contact in w.kids && contact.kind.Contact?
    ensures var c := if node != null then w.par[node] else contact; c != null && Placeable(w, b, c, node)
  {
    if node == null && b in w.par && w.par[b] == contact { assert b in w.kids[contact]; }
  }

  lemma AddedThere(w: World, norm: string -> string, b: Node,
    contact: Node?, group: Node?, node: Node?, c: Node, r: Node?, q: Node?)
    requires WellFormed(w) && !Stays(w, b, contact, node) && (node != null || contact != null)
    requires node != null ==> node in w.par && c == w.par[node]
    requires node == null ==> c == contact
    requires Chose(w, norm, b, c, node, r, q)
    ensures BuddyAdded(w, Placed(w, norm, b, c, node, r, q), norm, b, contact, group, node, c, r, q)
    ensures Placed(w, norm, b, c, node, r, q).nodes == w.nodes
  {
    hide WellFormed, Placed;
    PlacedRest(w, norm, b, c, node, r, q);
    PlacedNodes(w, norm, b, c, node, r, q);
  }

  lemma PlacedNodes(w: World, norm: string -> string, b: Node, c: Node, a: Node?, r: Node?, q: Node?)
    requires WellFormed(w) && Placeable(w, b, c, a)
    ensures Placed(w, norm, b, c, a, r, q).nodes == w.nodes
  {
    if b in w.par { DetachedRest(w, b); }
  }

  lemma AddedAlone(w: World, norm: string -> string, b: Node, g: Node, c: Node, r: Node?, q: Node?)
    requires WellFormed(w) && g in w.kids && g.kind.Group? && c.kind.Contact? && c !in w.nodes
    requires var m := WithContact(w, norm, c, g); c in m.par && m.par[c] == g && Chose(m, norm, b, c, null, r, q)
    ensures BuddyAdded(w, Placed(WithContact(w, norm, c, g), norm, b, c, null, r, q), norm, b, null, g, null, c, r, q)
  {
  }
}
