/** Merging contacts and merging groups: what each step of the loops does to the lists. */
module BlistMerge {
  import opened BlistModel
  import opened BlistTally
  import opened BlistMoves
  import opened BlistContacts
  import opened BlistGroups

  lemma AddAtLast(s: seq<Node>, x: Node)
    requires Distinct(s)
    ensures AddAfter(s, Last(s), x) == s + [x]
  {
    if s != [] {
      AddAfterAt(s, |s| - 1, x);
      assert s[..|s| - 1 + 1] == s && s[|s| - 1 + 1..] == [];
    }
  }

  lemma PutBack(s: seq<Node>, k: nat)
    requires 0 < k < |s| && Distinct(s)
    ensures s[k - 1] in Without(s, s[k])
    ensures AddAfter(Without(s, s[k]), s[k - 1], s[k]) == s
  {
    WithoutAt(s, k);
    WithoutMembers(s, s[k]);
    PutBackAt(s, k);
  }

  lemma PutBackAt(s: seq<Node>, k: nat)
    requires 0 < k < |s| && Distinct(s[..k] + s[k + 1..])
    ensures var t := s[..k] + s[k + 1..]; s[k - 1] in t && AddAfter(t, s[k - 1], s[k]) == s
  {
    var t, p, a := s[..k] + s[k + 1..], s[..k - 1], s[k - 1];
    assert t[k - 1] == a;
    forall i | 0 <= i < |p| ensures p[i] != a { assert t[i] == p[i]; }
    AddAfterParts(p, a, s[k], s[k + 1..]);
    assert t == p + [a] + s[k + 1..];
    assert s == p + [a, s[k]] + s[k + 1..];
  }

  lemma {:induction false} AddAfterParts(p: seq<Node>, a: Node, b: Node, z: seq<Node>)
    requires a !in p
    ensures AddAfter(p + [a] + z, a, b) == p + [a, b] + z
  {
    var s := p + [a] + z;
    if p == [] {
      assert s[1..] == z;
    } else {
      AddAfterParts(p[1..], a, b, z);
      assert s[0] == p[0] && s[1..] == p[1..] + [a] + z;
      assert [p[0]] + (p[1..] + [a, b] + z) == p + [a, b] + z;
    }
  }

  /** All that is not a list, a count, a priority or the hash is the same. */
  ghost predicate SameRest(w: World, v: World) {
    v.nodes == w.nodes && v.info == w.info && v.connected == w.connected && v.names == w.names
  }

  // ------------------------------------------------------------------- merging contacts

  /** The first i buddies of contact d of group h are at the end of contact c, in their order; a
      contact d that had buddies and has none left is gone. */
  ghost function MergedKids(kids: map<Node?, seq<Node>>, h: Node?, d: Node, c: Node, i: nat): map<Node?, seq<Node>>
    requires h in kids && d in kids && c in kids && i <= |kids[d]|
  {
    var s := kids[d];
    if 0 < i == |s| then (kids - {d})[c := kids[c] + s][h := Without(kids[h], d)]
    else kids[c := kids[c] + s[..i]][d := s[i..]]
  }

  ghost predicate Mergeable(w: World, d: Node, c: Node) {
    WellFormed(w) && d in w.par && d.kind.Contact? && c in w.par && c.kind.Contact? && c != d
  }

  ghost predicate Merged(w: World, v: World, d: Node, c: Node, i: nat)
    requires Mergeable(w, d, c)
  {
    i <= |w.kids[d]| && SameRest(w, v) && v.kids == MergedKids(w.kids, w.par[d], d, c, i)
  }

  lemma MergedNodes(w: World, v: World, d: Node, c: Node, i: nat)
    requires Mergeable(w, d, c) && Merged(w, v, d, c, i)
    ensures v.nodes == w.nodes
  {
  }

  lemma NothingMerged(w: World, d: Node, c: Node)
    requires Mergeable(w, d, c)
    ensures Merged(w, w, d, c, 0)
  {
    assert w.kids[d][0..] == w.kids[d] && w.kids[c] + w.kids[d][..0] == w.kids[c];
  }

  lemma DetachedKids(v: World, b: Node)
    requires WellFormed(v) && b in v.par && b.kind.Buddy?
    ensures var d := v.par[b]; var h, s := v.par[d], Without(v.kids[d], b);
      Detached(v, b).kids == if s == [] then (v.kids - {d})[h := Without(v.kids[h], d)] else v.kids[d := s]
  {
    var d := v.par[b];
    var s := Without(v.kids[d], b);
    assert v.par[d] != d;
    if s == [] {
      var t := Without(v.kids[v.par[d]], d);
      assert v.kids[d := s][v.par[d] := t] - {d} == (v.kids - {d})[v.par[d] := t];
    }
  }

  lemma PlacedKids(v: World, norm: string -> string, b: Node, c: Node, a: Node?, r: Node?, q: Node?)
    requires WellFormed(v) && Placeable(v, b, c, a) && b in v.par
    ensures var t, u := Detached(v, b).kids, Placed(v, norm, b, c, a, r, q);
      c in t && u.kids == t[c := AddAfter(t[c], a, b)] && SameRest(v, u)
  {
    PlacedRest(v, norm, b, c, a, r, q);
    HalfwayRest(v, norm, b, v.par[c], r);
    DetachedRest(v, b);
  }

  /** The next buddy of d is the first of those it still has. */
  lemma MergeNext(w: World, v: World, d: Node, c: Node, i: nat)
    requires Mergeable(w, d, c) && Merged(w, v, d, c, i) && i < |w.kids[d]| && WellFormed(v)
    ensures var b := w.kids[d][i]; var a := Last(v.kids[c]);
      && d in v.par && c in v.par && v.par[d] == w.par[d] && v.par[c] == w.par[c]
      && v.kids[d] == w.kids[d][i..] && v.kids[c] == w.kids[c] + w.kids[d][..i]
      && b in v.par && v.par[b] == d && b.kind.Buddy? && b in w.par
      && (a != null ==> a in v.par && a.kind.Buddy? && v.par[a] == c) && Placeable(v, b, c, a)
  {
    var s := w.kids[d];
    var b := s[i];
    assert s[i..][0] == b;
    assert b in v.kids[d] && b in s;
    assert d in w.kids[w.par[d]] && c in w.kids[w.par[c]];
    assert d in v.kids[w.par[d]] && c in v.kids[w.par[c]];
    var a := Last(v.kids[c]);
    if a != null { assert a == v.kids[c][|v.kids[c]| - 1]; assert a in v.kids[c]; }
  }

  lemma KidsStep(kids: map<Node?, seq<Node>>, h: Node?, d: Node, c: Node, i: nat)
    requires h in kids && d in kids && c in kids && h != d && h != c && d != c && i < |kids[d]|
    ensures var m, s := MergedKids(kids, h, d, c, i), kids[d];
      var t := if i + 1 == |s| then (m - {d})[h := Without(m[h], d)] else m[d := s[i + 1..]];
      t[c := m[c] + [s[i]]] == MergedKids(kids, h, d, c, i + 1)
  {
    var s := kids[d];
    assert s[..i] + [s[i]] == s[..i + 1];
    assert kids[c] + s[..i] + [s[i]] == kids[c] + s[..i + 1];
    if i + 1 == |s| { assert s[..i + 1] == s; }
  }

  lemma MergeStep(w: World, v: World, norm: string -> string, d: Node, c: Node, i: nat, r: Node?, q: Node?)
    requires Mergeable(w, d, c) && Merged(w, v, d, c, i) && i < |w.kids[d]| && WellFormed(v)
    ensures Placeable(v, w.kids[d][i], c, Last(v.kids[c]))
    ensures Merged(w, Placed(v, norm, w.kids[d][i], c, Last(v.kids[c]), r, q), d, c, i + 1)
  {
    var s, h := w.kids[d], w.par[d];
    var b, a := s[i], Last(v.kids[c]);
    MergeNext(w, v, d, c, i);
    PlacedKids(v, norm, b, c, a, r, q);
    DetachedKids(v, b);
    AddAtLast(v.kids[c], b);
    assert Without(s[i..], b) == s[i + 1..];
    assert h != c && h != d && Detached(v, b).kids[c] == v.kids[c];
    KidsStep(w.kids, h, d, c, i);
  }

  /** The lists from which a buddy of v comes. */
  lemma MergedFrom(w: World, v: World, d: Node, c: Node, i: nat, x: Node)
    requires Mergeable(w, d, c) && Merged(w, v, d, c, i) && WellFormed(v) && x in v.par && x.kind.Buddy?
    ensures x in w.par && w.par[x] in w.par && v.par[x] in v.par
    ensures w.par[w.par[x]] == v.par[v.par[x]] || w.par[x] == d
  {
    var p: Node := v.par[x];
    assert x in v.kids[p] && p in v.kids[v.par[p]];
    if p == c {
      assert x in w.kids[c] || x in w.kids[d];
    } else if p == d {
      assert x in w.kids[d];
    } else {
      assert v.kids[p] == w.kids[p];
    }
    MergedContact(w, v, d, c, i, p);
  }

  /** A contact of v is where it was. */
  lemma MergedContact(w: World, v: World, d: Node, c: Node, i: nat, p: Node)
    requires Mergeable(w, d, c) && Merged(w, v, d, c, i) && WellFormed(v) && p in v.par && p.kind.Contact?
    ensures p in w.par && w.par[p] == v.par[p]
  {
    var h := v.par[p];
    assert p in v.kids[h];
    if h == w.par[d] { WithoutMembers(w.kids[h], d); }
    assert p in w.kids[h];
  }

  /** A buddy has the key it had, or comes from d. */
  lemma MergedKey(w: World, v: World, norm: string -> string, d: Node, c: Node, i: nat, x: Node)
    requires Mergeable(w, d, c) && Merged(w, v, d, c, i) && WellFormed(v) && x in Keys(v.par, norm)
    ensures x in Keys(w.par, norm) && x in w.par
    ensures var k, l := Keys(w.par, norm)[x], Keys(v.par, norm)[x];
      l.name == k.name && l.account == k.account && (l.group == k.group || k.group == w.par[d])
  {
    MergedFrom(w, v, d, c, i, x);
  }

  /** No buddy still to be moved clashes with a buddy that is in the target's group by now. */
  lemma MergeNoClash(w: World, v: World, norm: string -> string, d: Node, c: Node, i: nat)
    requires Mergeable(w, d, c) && Merged(w, v, d, c, i) && i < |w.kids[d]| && Inv(w, norm) && Inv(v, norm)
    requires NoContactClash(w, norm, d, w.par[c])
    ensures NoClash(v, norm, w.kids[d][i], w.par[c])
  {
    MergeKey(w, norm, d, i);
    var b := w.kids[d][i];
    var k := Key(norm(b.name), b.account, w.par[c]);
    if k in v.index {
      MergedKey(w, v, norm, d, c, i, v.index[k]);
      hide Merged, WellFormed, SizesOK, NamesOK, Keys;
    }
  }

  lemma MergeKey(w: World, norm: string -> string, d: Node, i: nat)
    requires WellFormed(w) && d in w.par && d.kind.Contact? && i < |w.kids[d]|
    ensures var b := w.kids[d][i];
      b in Keys(w.par, norm) && Keys(w.par, norm)[b] == Key(norm(b.name), b.account, w.par[d])
  {
    assert w.kids[d][i] in w.kids[d];
  }

  /** The next buddy can be added to the end of contact c. */
  lemma MergeReady(u: World, v: World, norm: string -> string, d: Node, c: Node, i: nat)
    requires Mergeable(u, d, c) && Merged(u, v, d, c, i) && i < |u.kids[d]| && Inv(u, norm) && Inv(v, norm)
    requires NoContactClash(u, norm, d, u.par[c])
    ensures var b, a := u.kids[d][i], Last(v.kids[c]);
      && b in v.nodes && b in v.par && b.kind.Buddy? && b !in v.kids && c in v.kids && v.par[b] != c
      && (a != null ==> a in v.par && a.kind.Buddy?)
      && NoClash(v, norm, b, TargetGroup(v, c, null, a)) && !Stays(v, b, c, a)
      && b in u.info && (Settled(u, b) ==> Settled(v, b))
  {
    MergeNext(u, v, d, c, i);
    MergeNoClash(u, v, norm, d, c, i);
  }

  lemma MergedBy(u: World, v: World, x: World, norm: string -> string, d: Node, c: Node, i: nat, e: Node, r: Node?,
        q: Node?)
    requires Mergeable(u, d, c) && Merged(u, v, d, c, i) && i < |u.kids[d]| && WellFormed(v) && c in v.kids
    requires !Stays(v, u.kids[d][i], c, Last(v.kids[c]))
    requires BuddyAdded(v, x, norm, u.kids[d][i], c, null, Last(v.kids[c]), e, r, q)
    ensures Merged(u, x, d, c, i + 1)
  {
    MergeNext(u, v, d, c, i);
    MergeStep(u, v, norm, d, c, i, r, q);
  }

  /** Buddies that are signing off. */
  ghost function SigningOffF(info: map<Node, Info>): Node -> bool {
    (n: Node) => n in info && info[n].present == SigningOff
  }

  /** Each buddy that is moved while signing off leaves the target's online count one short of a recount. */
  lemma MergedShort(u: World, v: World, x: World, norm: string -> string, d: Node, c: Node, i: nat, e: Node, r: Node?,
        q: Node?)
    requires Mergeable(u, d, c) && Merged(u, v, d, c, i) && i < |u.kids[d]| && WellFormed(v) && c in v.kids
    requires !Stays(v, u.kids[d][i], c, Last(v.kids[c])) && OfflineOK(v)
    requires BuddyAdded(v, x, norm, u.kids[d][i], c, null, Last(v.kids[c]), e, r, q)
    ensures OfflineOK(x)
    ensures Short(x, c) == Short(v, c) + Bit(SigningOffF(u.info)(u.kids[d][i]))
  {
    hide OfflineOK, Short;
    MergeNext(u, v, d, c, i);
    PlacedShort(v, norm, u.kids[d][i], c, Last(v.kids[c]), r, q);
  }

  lemma CountSnoc(s: seq<Node>, f: Node -> bool, i: nat)
    requires i < |s|
    ensures Count(s[..i + 1], f) == Count(s[..i], f) + Bit(f(s[i]))
  {
    CountAppend(s[..i], [s[i]], f);
    assert s[..i + 1] == s[..i] + [s[i]];
  }

  ghost predicate AllSettled(u: World, s: seq<Node>) {
    forall i :: 0 <= i < |s| ==> s[i] in u.info && Settled(u, s[i])
  }

  /** Where accounts that are not connected have Offline buddies only, buddies are unsettled if they sign off. */
  lemma {:induction false} SettledCount(u: World, s: seq<Node>)
    requires OfflineOK(u) && forall i :: 0 <= i < |s| ==> s[i] in u.par && s[i].kind.Buddy?
    ensures AllSettled(u, s) <==> Count(s, SigningOffF(u.info)) == 0
  {
    if s != [] {
      SettledCount(u, s[1..]);
      assert s[0] in u.par;
      assert AllSettled(u, s) <==> s[0] in u.info && Settled(u, s[0]) && AllSettled(u, s[1..]);
    }
  }

  lemma MergedTarget(w: World, v: World, d: Node, c: Node, i: nat)
    requires Mergeable(w, d, c) && Merged(w, v, d, c, i) && WellFormed(v)
    ensures c in v.kids && c in v.online
  {
    assert c in w.kids;
  }

  lemma ShortNotOnline(w: World, c: Node)
    requires c in w.kids && c in w.online && OnlineOK(w)
    ensures Short(w, c) == 0
  {
  }

  // --------------------------------------------------------------------- merging groups

  ghost predicate GroupMergeable(w: World, h: Node, g: Node) {
    WellFormed(w) && h in w.par && h.kind.Group? && g in w.par && g.kind.Group? && h != g
  }

  /** The first i children of group h are at the end of group g, in their order. */
  ghost predicate GroupMerged(w: World, v: World, h: Node, g: Node, i: nat)
    requires GroupMergeable(w, h, g)
  {
    && i <= |w.kids[h]| && SameRest(w, v)
    && v.kids == w.kids[g := w.kids[g] + w.kids[h][..i]][h := w.kids[h][i..]]
  }

  lemma GroupMergedNodes(w: World, v: World, h: Node, g: Node, i: nat)
    requires GroupMergeable(w, h, g) && GroupMerged(w, v, h, g, i)
    ensures v.nodes == w.nodes
  {
  }

  lemma NothingGroupMerged(w: World, h: Node, g: Node)
    requires GroupMergeable(w, h, g)
    ensures GroupMerged(w, w, h, g, 0)
  {
    assert w.kids[h][0..] == w.kids[h] && w.kids[g] + w.kids[h][..0] == w.kids[g];
  }

  lemma GroupMergeNext(w: World, v: World, h: Node, g: Node, i: nat)
    requires GroupMergeable(w, h, g) && GroupMerged(w, v, h, g, i) && i < |w.kids[h]| && WellFormed(v)
    ensures var x := w.kids[h][i]; var a := Last(v.kids[g]);
      && h in v.par && g in v.par && v.kids[h] == w.kids[h][i..] && v.kids[g] == w.kids[g] + w.kids[h][..i]
      && x in v.par && v.par[x] == h && x in w.par && w.par[x] == h && x != a
      && (x.kind.Contact? || x.kind.Chat?)
      && (x.kind.Contact? ==> x in v.kids && v.kids[x] == w.kids[x])
      && (a != null ==> a in v.par && v.par[a] == g && (a.kind.Contact? || a.kind.Chat?))
  {
    var x := w.kids[h][i];
    assert w.kids[h][i..][0] == x;
    assert x in v.kids[h] && x in w.kids[h];
    assert v.kids[null] == w.kids[null];
    assert h in v.kids[null] && g in v.kids[null];
    var a := Last(v.kids[g]);
    if a != null { assert a in v.kids[g]; }
  }

  lemma GroupKidsStep(kids: map<Node?, seq<Node>>, h: Node, g: Node, i: nat)
    requires h in kids && g in kids && h != g && i < |kids[h]|
    requires Distinct(kids[g] + kids[h][..i])
    ensures var s := kids[h]; var x := s[i];
      var m := kids[g := kids[g] + s[..i]][h := s[i..]];
      m[h := Without(m[h], x)][g := AddAfter(m[g], Last(m[g]), x)] == kids[g := kids[g] + s[..i + 1]][h := s[i + 1..]]
  {
    var s := kids[h];
    var x, t := s[i], kids[g] + s[..i];
    AddAtLast(t, x);
    assert t + [x] == kids[g] + s[..i + 1];
    assert Without(s[i..], x) == s[i..][1..] == s[i + 1..];
  }

  lemma GroupMergeSplice(w: World, v: World, u: World, h: Node, g: Node, i: nat)
    requires GroupMergeable(w, h, g) && GroupMerged(w, v, h, g, i) && i < |w.kids[h]| && WellFormed(v)
    requires SameRest(v, u)
    requires var x := w.kids[h][i];
      u.kids == v.kids[h := Without(v.kids[h], x)][g := AddAfter(v.kids[g], Last(v.kids[g]), x)]
    ensures GroupMerged(w, u, h, g, i + 1)
  {
    assert Distinct(v.kids[g]);
    GroupKidsStep(w.kids, h, g, i);
  }

  lemma ContactMergeStep(w: World, v: World, norm: string -> string, h: Node, g: Node, i: nat)
    requires GroupMergeable(w, h, g) && GroupMerged(w, v, h, g, i) && i < |w.kids[h]| && WellFormed(v)
    requires w.kids[h][i].kind.Contact?
    ensures ContactPlaceable(v, w.kids[h][i], g, Last(v.kids[g]))
    ensures GroupMerged(w, ContactPlaced(v, norm, w.kids[h][i], g, Last(v.kids[g])), h, g, i + 1)
  {
    var x, a := w.kids[h][i], Last(v.kids[g]);
    GroupMergeNext(w, v, h, g, i);
    LastIn(v.kids[g]);
    hide WellFormed, GroupMerged;
    ContactPlacedKids(v, norm, x, g, a);
    GroupMergeSplice(w, v, ContactPlaced(v, norm, x, g, a), h, g, i);
  }

  lemma ContactPlacedKids(v: World, norm: string -> string, x: Node, g: Node, a: Node?)
    requires WellFormed(v) && ContactPlaceable(v, x, g, a) && x in v.par && v.par[x] != g
    ensures var h, u := v.par[x], ContactPlaced(v, norm, x, g, a);
      u.kids == v.kids[h := Without(v.kids[h], x)][g := AddAfter(v.kids[g], a, x)] && SameRest(v, u)
  {
    LiftedLoose(v, x, g, a);
  }

  lemma ChatMergeStep(w: World, v: World, h: Node, g: Node, i: nat)
    requires GroupMergeable(w, h, g) && GroupMerged(w, v, h, g, i) && i < |w.kids[h]| && WellFormed(v)
    requires w.kids[h][i].kind.Chat?
    ensures ChatPlaceable(v, w.kids[h][i], g, Last(v.kids[g]))
    ensures GroupMerged(w, ChatPlaced(v, w.kids[h][i], g, Last(v.kids[g])), h, g, i + 1)
  {
    var x, a := w.kids[h][i], Last(v.kids[g]);
    GroupMergeNext(w, v, h, g, i);
    LastIn(v.kids[g]);
    ChatPlacedKids(v, x, g, a);
    GroupMergeSplice(w, v, ChatPlaced(v, x, g, a), h, g, i);
  }

  lemma LastIn(s: seq<Node>)
    ensures Last(s) != null ==> Last(s) in s
  {
    if s != [] { assert s[|s| - 1] in s; }
  }

  lemma ChatPlacedKids(v: World, x: Node, g: Node, a: Node?)
    requires WellFormed(v) && ChatPlaceable(v, x, g, a) && x in v.par && v.par[x] != g
    ensures var h, u := v.par[x], ChatPlaced(v, x, g, a);
      u.kids == v.kids[h := Without(v.kids[h], x)][g := AddAfter(v.kids[g], a, x)] && SameRest(v, u)
  {
    ChatLiftedPlace(v, x, g, a);
  }

  /** None of the buddies of group h has the key that another buddy has in group g. */
  ghost predicate NoGroupClash(w: World, norm: string -> string, h: Node, g: Node) {
    forall b: Node {:trigger w.par[b]} ::
        b in w.par && b.kind.Buddy? && w.par[b] != null && w.par[b] in w.par && w.par[w.par[b]] == h ==>
      Key(norm(b.name), b.account, g) !in w.index
  }

  lemma GroupMergedFrom(w: World, v: World, h: Node, g: Node, i: nat, x: Node)
    requires GroupMergeable(w, h, g) && GroupMerged(w, v, h, g, i) && WellFormed(v) && x in v.par && x.kind.Buddy?
    ensures x in w.par && w.par[x] in w.par && v.par[x] == w.par[x] && v.par[x] in v.par
    ensures v.par[v.par[x]] == w.par[w.par[x]] || (w.par[w.par[x]] == h && v.par[v.par[x]] == g)
  {
    var p: Node := v.par[x];
    assert x in v.kids[p] && p in v.kids[v.par[p]];
    assert v.kids[p] == w.kids[p];
    var k := v.par[p];
    if k == g { assert p in w.kids[g] || p in w.kids[h]; } else { assert p in w.kids[k]; }
  }

  lemma GroupMergeNoClash(w: World, v: World, norm: string -> string, h: Node, g: Node, i: nat)
    requires GroupMergeable(w, h, g) && GroupMerged(w, v, h, g, i) && i < |w.kids[h]| && Inv(w, norm) && Inv(v, norm)
    requires NoGroupClash(w, norm, h, g) && w.kids[h][i].kind.Contact?
    ensures NoContactClash(v, norm, w.kids[h][i], g)
  {
    var x := w.kids[h][i];
    GroupMergeNext(w, v, h, g, i);
    var s := v.kids[x];
    forall j | 0 <= j < |s| ensures Key(norm(s[j].name), s[j].account, g) !in v.index {
      var b := s[j];
      assert b in s;
      BuddyNoClash(w, v, norm, h, g, i, b);
    }
  }

  lemma BuddyNoClash(w: World, v: World, norm: string -> string, h: Node, g: Node, i: nat, b: Node)
    requires GroupMergeable(w, h, g) && GroupMerged(w, v, h, g, i) && Inv(w, norm) && Inv(v, norm)
    requires NoGroupClash(w, norm, h, g)
    requires b in v.par && b.kind.Buddy? && v.par[b] in v.par && v.par[v.par[b]] == h
    ensures Key(norm(b.name), b.account, g) !in v.index
  {
    var k := Key(norm(b.name), b.account, g);
    GroupMergedKey(w, v, norm, h, g, i, b);
    if k in v.index { GroupMergedKey(w, v, norm, h, g, i, v.index[k]); }
  }

  /** A buddy has the key it had, or has come from h to g with it. */
  lemma GroupMergedKey(w: World, v: World, norm: string -> string, h: Node, g: Node, i: nat, x: Node)
    requires GroupMergeable(w, h, g) && GroupMerged(w, v, h, g, i) && WellFormed(v) && x in Keys(v.par, norm)
    ensures x in Keys(w.par, norm) && x in w.par && w.par[x] != null && w.par[x] in w.par
    ensures var k, l := Keys(w.par, norm)[x], Keys(v.par, norm)[x];
      l == k || (k.group == h == w.par[w.par[x]] && l == k.(group := g))
  {
    GroupMergedFrom(w, v, h, g, i, x);
  }

  /** Putting a buddy right after the one it follows changes nothing but the choice of the priority buddy. */
  lemma PlacedInSitu(v: World, norm: string -> string, b: Node, k: nat, r: Node?, q: Node?)
    requires Inv(v, norm) && b in v.par && b.kind.Buddy? && 0 < k < |v.kids[v.par[b]]| && v.kids[v.par[b]][k] == b
    ensures Placeable(v, b, v.par[b], v.kids[v.par[b]][k - 1])
    ensures Placed(v, norm, b, v.par[b], v.kids[v.par[b]][k - 1], r, q) == v.(prio := v.prio[v.par[b] := q])
  {
    var c: Node := v.par[b];
    var a := v.kids[c][k - 1];
    assert a in v.kids[c];
    assert Placeable(v, b, c, a);
    InSituLists(v, norm, b, k, r, q);
    InSituIndex(v, norm, b, c, a, r, q);
    InSituCounts(v, norm, b, c, a, r, q);
  }

  lemma InSituLists(v: World, norm: string -> string, b: Node, k: nat, r: Node?, q: Node?)
    requires WellFormed(v) && b in v.par && b.kind.Buddy? && 0 < k < |v.kids[v.par[b]]| && v.kids[v.par[b]][k] == b
    requires Placeable(v, b, v.par[b], v.kids[v.par[b]][k - 1])
    ensures var u := Placed(v, norm, b, v.par[b], v.kids[v.par[b]][k - 1], r, q); u.kids == v.kids && u.par == v.par
  {
    var c: Node := v.par[b];
    var a := v.kids[c][k - 1];
    assert Distinct(v.kids[c]);
    PutBack(v.kids[c], k);
    InSituKids(v, norm, b, c, a, r, q);
  }

  /** The second half of a move, field by field. */
  lemma PlacedFields(v: World, norm: string -> string, b: Node, c: Node, a: Node?, r: Node?, q: Node?)
    requires WellFormed(v) && Placeable(v, b, c, a)
    ensures var m, u := Halfway(v, norm, b, v.par[c], r), Placed(v, norm, b, c, a, r, q);
      && CanJoin(m, b, c, a) && c in m.par && m.par[c] == v.par[c] && HasCounts(m, c) && m.par[c] != null
          && HasCounts(m, m.par[c]) && b in m.info
      && u.kids == m.kids[c := AddAfter(m.kids[c], a, b)] && u.par == m.par[b := c]
      && u.total == m.total[c := m.total[c] + 1]
          && u.current == Raised(m.current, c, m.par[c], b.account in m.connected)
      && u.online == Raised(m.online, c, m.par[c], IsOnline(m, b)) && u.names == m.names && u.nodes == m.nodes
      && u.index == m.index[Key(norm(b.name), b.account, v.par[c]) := b] && u.prio == m.prio[c := q]
      && u.info == m.info && u.connected == m.connected
  {
    HalfwayCanJoin(v, norm, b, c, a, r);
    hide Halfway, Placeable;
  }

  lemma InSituFacts(v: World, b: Node, c: Node, a: Node?)
    requires WellFormed(v) && Placeable(v, b, c, a)
    ensures b.kind.Buddy? && c in v.kids && c in v.par && v.par[c] != null && v.par[c] != c
    ensures HasCounts(v, c) && HasCounts(v, v.par[c]) && b in v.info
  {
  }

  lemma InSituKids(v: World, norm: string -> string, b: Node, c: Node, a: Node?, r: Node?, q: Node?)
    requires WellFormed(v) && Placeable(v, b, c, a) && b in v.par && v.par[b] == c && c in v.kids
    ensures var u := Placed(v, norm, b, c, a, r, q);
      u.kids == v.kids[c := AddAfter(Without(v.kids[c], b), a, b)] && u.par == v.par
  {
    hide WellFormed, Placeable, Halfway, CanJoin, Placed, HasCounts;
    InSituFacts(v, b, c, a);
    PlacedFields(v, norm, b, c, a, r, q);
    HalfwayInSitu(v, norm, b, a, r);
    assert (v.par - {b})[b := c] == v.par;
  }

  lemma HalfwayInSitu(v: World, norm: string -> string, b: Node, a: Node?, r: Node?)
    requires WellFormed(v) && b in v.par && b.kind.Buddy? && Placeable(v, b, v.par[b], a)
    ensures var c := v.par[b]; var m := Halfway(v, norm, b, v.par[c], r);
      m.kids == v.kids[c := Without(v.kids[c], b)] && m.par == v.par - {b}
  {
    HalfwayRest(v, norm, b, v.par[v.par[b]], r);
    StaysInContact(v, b, a);
  }

  lemma InSituIndex(v: World, norm: string -> string, b: Node, c: Node, a: Node?, r: Node?, q: Node?)
    requires WellFormed(v) && IndexOK(v, norm, v.index) && Placeable(v, b, c, a) && b in v.par && v.par[b] == c
    ensures var u := Placed(v, norm, b, c, a, r, q);
      u.index == v.index && u.prio == v.prio[c := q] && u.info == v.info && u.connected == v.connected
  {
    hide WellFormed, Placeable, Halfway, CanJoin, Placed, IndexOK, HasCounts;
    InSituFacts(v, b, c, a);
    PlacedFields(v, norm, b, c, a, r, q);
    OwnKey(v, norm, b);
    HalfwayIndexIs(v, norm, b, r);
  }

  lemma OwnKey(v: World, norm: string -> string, b: Node)
    requires WellFormed(v) && IndexOK(v, norm, v.index) && b in v.par && b.kind.Buddy?
    ensures v.index == v.index[Key(norm(b.name), b.account, v.par[v.par[b]]) := b]
  {
    var k, keys := Key(norm(b.name), b.account, v.par[v.par[b]]), Keys(v.par, norm);
    assert b in keys && keys[b] == k;
    assert k in v.index && v.index[k] == b;
  }

  lemma HalfwayIndexIs(v: World, norm: string -> string, b: Node, r: Node?)
    requires WellFormed(v) && b in v.par && b.kind.Buddy?
    ensures var m := Halfway(v, norm, b, v.par[v.par[b]], r);
      m.index == v.index && m.prio == v.prio[v.par[b] := r] && m.info == v.info && m.connected == v.connected
  {
    DetachedRest(v, b);
    var h := v.par[v.par[b]];
    assert LeftIndexFor(v, norm, b, h) == v.index;
    assert Halfway(v, norm, b, h, r) == Detached(v, b).(index := v.index, prio := v.prio[v.par[b] := r]);
  }

  lemma InSituCounts(v: World, norm: string -> string, b: Node, c: Node, a: Node?, r: Node?, q: Node?)
    requires WellFormed(v) && Placeable(v, b, c, a) && b in v.par && v.par[b] == c
    ensures var u := Placed(v, norm, b, c, a, r, q);
      u.total == v.total && u.current == v.current && u.online == v.online && u.names == v.names && u.nodes == v.nodes
  {
    hide WellFormed, Placeable, Halfway, CanJoin, Placed, Raised, Lowered;
    InSituFacts(v, b, c, a);
    var g: Node := v.par[c];
    PlacedFields(v, norm, b, c, a, r, q);
    HalfwayCounts(v, norm, b, a, r);
    LoweredRaised(v.current, c, g, b.account in v.connected);
    LoweredRaised(v.online, c, g, IsOnline(v, b));
  }

  lemma HalfwayCounts(v: World, norm: string -> string, b: Node, a: Node?, r: Node?)
    requires WellFormed(v) && b in v.par && b.kind.Buddy? && Placeable(v, b, v.par[b], a)
    ensures var c := v.par[b]; var g, m := v.par[c], Halfway(v, norm, b, v.par[c], r);
      && m.total == v.total[c := v.total[c] - 1] && m.current == Lowered(v.current, c, g, b.account in v.connected)
      && m.online == Lowered(v.online, c, g, IsOnline(v, b)) && m.names == v.names && m.nodes == v.nodes
      && m.info == v.info && m.connected == v.connected && c in m.par && m.par[c] == g && g != null && g != c
  {
    StaysInContact(v, b, a);
  }

  lemma LoweredRaised(m: map<Node, int>, c: Node, g: Node, x: bool)
    requires c in m && g in m && c != g
    ensures Raised(Lowered(m, c, g, x), c, g, x) == m
  {
  }

  lemma GroupMergedIn(w: World, v: World, h: Node, g: Node, i: nat)
    requires GroupMergeable(w, h, g) && i < |w.kids[h]| && GroupMerged(w, v, h, g, i + 1) && WellFormed(v)
    ensures w.kids[h][i] in v.par
  {
    assert w.kids[h][i] == v.kids[g][|w.kids[g]| + i];
    assert w.kids[h][i] in v.kids[g];
  }

  // -------------------------------------------------------------------- renaming a group

  /** v is w after group h has been asked to take a name: nothing for no name or the one it has; its
      children at the end of the group that has the name, and h gone; or just the new name. */
  ghost predicate Renamed(w: World, v: World, h: Node, name: string)
    requires WellFormed(w) && h in w.par && h.kind.Group?
  {
    if name == "" || w.names[h] == name then v == w
    else if exists g: Node :: g in w.kids[null] && w.names[g] == name then
      exists g: Node :: g in w.kids[null] && w.names[g] == name && Absorbed(w, v, h, g)
    else v == w.(names := w.names[h := name])
  }

  lemma RenamedInto(w: World, v: World, h: Node, name: string, g: Node)
    requires WellFormed(w) && h in w.par && h.kind.Group? && g in w.kids[null] && g in w.kids && w.names[g] == name
    requires name != "" && w.names[h] != name && Absorbed(w, v, h, g)
    ensures Renamed(w, v, h, name)
  {
    hide Absorbed;
  }

  ghost predicate Absorbed(w: World, v: World, h: Node, g: Node)
    requires WellFormed(w) && h in w.par && h.kind.Group? && g in w.kids
  {
    SameRest(w, v) && v.kids == (w.kids - {h})[g := w.kids[g] + w.kids[h]][null := Without(w.kids[null], h)]
  }

  lemma GroupMergedAll(w: World, v: World, h: Node, g: Node)
    requires GroupMergeable(w, h, g) && GroupMerged(w, v, h, g, |w.kids[h]|) && WellFormed(v)
    ensures h in v.par && v.kids[h] == [] && Absorbed(w, GroupRemoved(v, h), h, g)
  {
    assert h in w.kids[null] && v.kids[null] == w.kids[null];
    assert h in v.par && v.par[h] == null;
    AbsorbedKids(w.kids, h, g);
  }

  lemma AbsorbedKids(kids: map<Node?, seq<Node>>, h: Node, g: Node)
    requires null in kids && h in kids && g in kids && h != g
    ensures var s := kids[h];
      var m := kids[g := kids[g] + s[..|s|]][h := s[|s|..]];
      m[null := Without(m[null], h)] - {h} == (kids - {h})[g := kids[g] + s][null := Without(kids[null], h)]
  {
    assert kids[h][..|kids[h]|] == kids[h];
  }

  /** A name no group has leaves everything else as it was. */
  lemma RenamedKeeps(w: World, norm: string -> string, h: Node, name: string)
    requires Inv(w, norm) && h in w.par && h.kind.Group?
    requires forall i :: 0 <= i < |w.kids[null]| ==> w.kids[null][i] in w.names && w.names[w.kids[null][i]] != name
    ensures var v := w.(names := w.names[h := name]); Inv(v, norm) && Keeps(w, v)
  {
    var v := w.(names := w.names[h := name]);
    forall g: Node, k: Node | g in v.kids[null] && k in v.kids[null] && v.names[g] == v.names[k] ensures g == k {
      assert exists i :: 0 <= i < |w.kids[null]| && w.kids[null][i] == g;
      assert exists i :: 0 <= i < |w.kids[null]| && w.kids[null][i] == k;
    }
  }
}
