/** Nodes added without saying where: the group that is found or made for them by name. */
module BlistDefaults {
  import opened BlistModel
  import opened BlistMoves
  import opened BlistContacts
  import opened BlistGroups

  const BUDDIES: string := "Buddies"
  const CHATS: string := "Chats"

  /** The default group is there, and nothing else has changed that has to do with other nodes. */
  ghost predicate DefaultThere(w: World, m: World, g: Node) {
    && g.kind.Group? && g in m.kids && m.nodes == w.nodes + {g} && m.par == w.par[g := null]
    && m.index == w.index && m.connected == w.connected
    && (forall n: Node {:trigger n in w.nodes} :: n in w.nodes && n != g ==> SameNode(w, m, n))
  }

  ghost predicate SameNode(w: World, m: World, n: Node) {
    && (n in m.kids <==> n in w.kids) && (n in w.kids ==> m.kids[n] == w.kids[n])
    && (n in w.info ==> n in m.info && m.info[n] == w.info[n])
    && (HasCounts(w, n) ==>
        HasCounts(m, n) && m.total[n] == w.total[n] && m.current[n] == w.current[n] && m.online[n] == w.online[n])
    && (n in w.prio ==> n in m.prio && m.prio[n] == w.prio[n])
  }

  lemma DefaultIsThere(w: World, m: World, g: Node, name: string)
    requires WellFormed(w) && DefaultMade(w, m, g, name)
    ensures DefaultThere(w, m, g)
  {
    var v := if g in w.nodes then w else Admitted(w, g, name);
    FoundThere(w, v, g, name);
    GroupStands(w, v, m, g);
  }

  lemma FoundThere(w: World, v: World, g: Node, name: string)
    requires WellFormed(w) && GroupFound(w, v, g, name)
    ensures v.nodes == w.nodes + {g} && v.par == w.par && v.kids == w.kids && v.index == w.index
    ensures v.connected == w.connected
    ensures g.kind.Group? && (g in v.par || Unlisted(v, g)) && (g in v.par ==> g in v.kids[null])
    ensures forall n: Node {:trigger n in w.nodes} :: n in w.nodes && n != g ==> SameNode(w, v, n)
  {
    if g !in w.nodes { AdmittedUnlisted(w, g, name); }
  }

  lemma GroupStands(w: World, v: World, m: World, g: Node)
    requires WellFormed(w) && WellFormed(v) && m == GroupAdded(v, g, Last(v.kids[null]))
    requires v.nodes == w.nodes + {g} && v.par == w.par && v.kids == w.kids && v.index == w.index
    requires v.connected == w.connected
    requires g.kind.Group? && (g in v.par || Unlisted(v, g)) && (g in v.par ==> g in v.kids[null])
    requires forall n: Node {:trigger n in w.nodes} :: n in w.nodes && n != g ==> SameNode(w, v, n)
    ensures DefaultThere(w, m, g)
  {
    hide SameNode, OwnersOK, NodesOK, FieldsOK, GroupPlaced;
    var a := Last(v.kids[null]);
    LastIsGroup(v);
    if g == a {
      assert m == v;
    } else {
      var b := if v.kids[null] == [] then null else a;
      PlacedThere(v, GroupPlaced(v, g, b), g, b);
      forall n: Node | n in w.nodes && n != g ensures SameNode(w, m, n) { SameNodeOn(w, v, m, n); }
    }
  }

  lemma SameNodeOn(w: World, v: World, m: World, n: Node)
    requires SameNode(w, v, n) && SameNode(v, m, n)
    ensures SameNode(w, m, n)
  {
  }

  lemma PlacedThere(v: World, m: World, g: Node, a: Node?)
    requires WellFormed(v) && GroupPlaceable(v, g, a) && m == GroupPlaced(v, g, a)
    ensures g in m.kids && m.nodes == v.nodes && m.par == v.par[g := null] && m.index == v.index
    ensures m.connected == v.connected
    ensures forall n: Node {:trigger n in v.nodes} :: n in v.nodes && n != g ==> SameNode(v, m, n)
  {
    GroupPlacedKids(v, g, a);
    GroupPlacedFields(v, g, a);
    hide WellFormed, GroupPlaced, GroupPlaceable;
    forall n: Node | n in v.nodes && n != g ensures SameNode(v, m, n) {
      assert n in m.kids <==> n in m.kids.Keys;
    }
  }

  lemma GroupPlacedFields(w: World, g: Node, a: Node?)
    requires WellFormed(w) && GroupPlaceable(w, g, a)
    ensures var v := GroupPlaced(w, g, a);
      v == w.(kids := v.kids, par := v.par)
  {
  }

  /** No buddy has a key in a group that is not there yet. */
  lemma NoKeyThere(w: World, norm: string -> string, g: Node, k: Key)
    requires WellFormed(w) && IndexOK(w, norm, w.index) && g !in w.nodes && k.group == g
    ensures k !in w.index
  {
  }

  // ------------------------------------------------------------------------- contacts

  /** The contact or chat after which a contact is to go. */
  ghost function Spot(node: Node?): Node? {
    if node != null && (node.kind.Contact? || node.kind.Chat?) then node else null
  }

  ghost function SpotGroup(w: World, group: Node?, a: Node?): Node? {
    if a == null then group else if a in w.par then w.par[a] else null
  }

  /** The contact c can go after a, or to group, or to the group of that name. */
  ghost predicate ContactFits(w: World, norm: string -> string, c: Node, group: Node?, a: Node?) {
    var g := SpotGroup(w, group, a);
    if g != null then ContactPlaceable(w, c, g, a) && NoContactClash(w, norm, c, g)
    else a == null && ContactReady(w, norm, c)
  }

  ghost predicate ContactReady(w: World, norm: string -> string, c: Node) {
    && c.kind.Contact? && (c in w.par || Unlisted(w, c)) && null in w.kids
    && forall h: Node :: h in w.kids[null] && h in w.names && w.names[h] == BUDDIES ==> NoContactClash(w, norm, c, h)
  }

  /** m is the list w once the group h that contact c is to go to is there. */
  ghost predicate ContactGroup(w: World, m: World, norm: string -> string, c: Node, group: Node?, a: Node?, h: Node?) {
    && h != null && Inv(m, norm) && ContactPlaceable(m, c, h, a) && NoContactClash(m, norm, c, h)
    && WellFormed(w)
    && if SpotGroup(w, group, a) != null then m == w && h == SpotGroup(w, group, a) else DefaultMade(w, m, h, BUDDIES)
  }

  lemma DefaultForContact(w: World, m: World, norm: string -> string, c: Node, g: Node)
    requires Inv(w, norm) && ContactFits(w, norm, c, null, null) && Inv(m, norm) && DefaultMade(w, m, g, BUDDIES)
    ensures ContactGroup(w, m, norm, c, null, null, g)
    ensures (c in m.par <==> c in w.par) && c in w.nodes && m.nodes == w.nodes + {g}
  {
    DefaultIsThere(w, m, g, BUDDIES);
    assert c in w.nodes && c != g;
    assert SameNode(w, m, c);
    if c in m.par && m.par[c] != g {
      DefaultNoKey(w, m, norm, c, g);
    }
  }

  lemma DefaultNoKey(w: World, m: World, norm: string -> string, c: Node, g: Node)
    requires Inv(w, norm) && ContactReady(w, norm, c) && DefaultMade(w, m, g, BUDDIES) && DefaultThere(w, m, g)
    requires c in w.par && w.par[c] != g && c in w.kids && c in m.kids && m.kids[c] == w.kids[c]
    ensures NoContactClash(m, norm, c, g)
  {
    forall i | 0 <= i < |m.kids[c]|
      ensures Key(norm(m.kids[c][i].name), m.kids[c][i].account, g) !in m.index
    {
      if g in w.nodes {
        assert NoContactClash(w, norm, c, g);
      } else {
        NoKeyThere(w, norm, g, Key(norm(m.kids[c][i].name), m.kids[c][i].account, g));
      }
    }
  }

  lemma ContactGroupReady(w: World, m: World, norm: string -> string, c: Node, group: Node?, a: Node?, h: Node?)
    requires ContactGroup(w, m, norm, c, group, a, h)
    ensures h != null && WellFormed(m) && ContactPlaceable(m, c, h, a) && NoContactClash(m, norm, c, h)
  {
  }

  // ---------------------------------------------------------------------------- chats

  ghost predicate ChatFits(w: World, x: Node, group: Node?, a: Node?) {
    var g := SpotGroup(w, group, a);
    if g != null then ChatPlaceable(w, x, g, a)
    else a == null && x.kind.Chat? && (x in w.par || (x in w.nodes && x !in w.kids))
  }

  /** m is the list w once the group h that chat x is to go to is there. */
  ghost predicate ChatGroup(w: World, m: World, norm: string -> string, x: Node, group: Node?, a: Node?, h: Node?) {
    && h != null && Inv(m, norm) && ChatPlaceable(m, x, h, a) && WellFormed(w)
    && if SpotGroup(w, group, a) != null then m == w && h == SpotGroup(w, group, a) else DefaultMade(w, m, h, CHATS)
  }

  lemma DefaultForChat(w: World, m: World, norm: string -> string, x: Node, g: Node)
    requires WellFormed(w) && ChatFits(w, x, null, null) && Inv(m, norm) && DefaultMade(w, m, g, CHATS)
    ensures ChatGroup(w, m, norm, x, null, null, g)
    ensures (x in m.par <==> x in w.par) && x in w.nodes && m.nodes == w.nodes + {g}
  {
    DefaultIsThere(w, m, g, CHATS);
    assert x in w.nodes && x != g;
    assert SameNode(w, m, x);
  }

  lemma ChatGroupReady(w: World, m: World, norm: string -> string, x: Node, group: Node?, a: Node?, h: Node?)
    requires ChatGroup(w, m, norm, x, group, a, h)
    ensures h != null && WellFormed(m) && ChatPlaceable(m, x, h, a)
  {
  }

  // -------------------------------------------------------------------------- buddies

  /** The buddy after which a buddy is to go. */
  ghost function BuddySpot(node: Node?): Node? {
    if node != null && node.kind.Buddy? then node else null
  }

  /** b can go after a, to contact, to group, or to the group of that name. */
  ghost predicate BuddyFits(w: World, norm: string -> string, b: Node, contact: Node?, group: Node?, a: Node?) {
    && b in w.nodes && b.kind.Buddy? && b !in w.kids
    && (a != null ==> a in w.par && a.kind.Buddy?)
    && (contact != null ==> contact in w.kids && contact.kind.Contact?)
    && (group != null ==> group in w.kids && group.kind.Group?)
    && if a == null && contact == null && group == null then BuddyReady(w, norm, b)
       else NoClash(w, norm, b, TargetGroup(w, contact, group, a))
  }

  ghost predicate BuddyReady(w: World, norm: string -> string, b: Node) {
    null in w.kids && forall h: Node ::
        h in w.kids[null] && h in w.names && w.names[h] == BUDDIES ==> NoClash(w, norm, b, h)
  }

  /** m is the list w once there is a group, g unless node or contact say which, that buddy b is to go to. */
  ghost predicate BuddyGroup(w: World, m: World, norm: string -> string, b: Node,
    contact: Node?, group: Node?, a: Node?, g: Node?)
  {
    && Inv(m, norm) && WellFormed(w) && BuddyFits(m, norm, b, contact, g, a)
    && if a != null || contact != null || group != null then m == w && g == group
       else g != null && DefaultMade(w, m, g, BUDDIES)
  }

  lemma DefaultForBuddy(w: World, m: World, norm: string -> string, b: Node, g: Node)
    requires Inv(w, norm) && BuddyFits(w, norm, b, null, null, null) && Inv(m, norm) && DefaultMade(w, m, g, BUDDIES)
    ensures BuddyGroup(w, m, norm, b, null, null, null, g)
    ensures (b in m.par <==> b in w.par) && (b in w.par ==> m.par[b] == w.par[b]) && m.nodes == w.nodes + {g}
    ensures b in w.info && b in m.info && m.info[b] == w.info[b] && m.connected == w.connected
  {
    DefaultIsThere(w, m, g, BUDDIES);
    assert SameNode(w, m, b);
    if g !in w.nodes {
      NoKeyThere(w, norm, g, Key(norm(b.name), b.account, g));
    } else {
      assert NoClash(w, norm, b, g);
    }
  }

  lemma BuddyGroupReady(w: World, m: World, norm: string -> string, b: Node,
    contact: Node?, group: Node?, a: Node?, g: Node?)
    requires BuddyGroup(w, m, norm, b, contact, group, a, g)
    ensures WellFormed(m) && b in m.nodes && b.kind.Buddy? && b !in m.kids
    ensures (a != null || contact != null || g != null)
    ensures a != null ==> a in m.par && a.kind.Buddy?
    ensures contact != null ==> contact in m.kids && contact.kind.Contact?
    ensures g != null ==> g in m.kids && g.kind.Group?
    ensures NoClash(m, norm, b, TargetGroup(m, contact, g, a))
  {
  }
}
